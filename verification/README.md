# Dumpectorist, verified in Dafny

A model of the deterministic core of Dumpectorist and proofs about it. Three parts of the system
are modelled:

- **The market-structure chain.** Pivot lows are found and thinned (`Pivots`), grouped by a running
  median (`Clusters`) and turned into support zones (`SupportZones`, `ZoneMeaning`); a machine follows
  each zone through breaks and reclaims (`StructureEvents`, `EventMeaning`); a selector turns the
  events into evidence (`HtfEngine`); a classifier reads the candles after a break (`ReclaimModels`,
  `ReclaimEngine`, `ReclaimGrowth`, `ReclaimRecords`, `ReclaimFinality`, `ReclaimMeaning`,
  `ReclaimFigures`); and the join of the two engines on a 4H batch is `RuntimeAnalysis`.
- **The runtime.** The orchestrator as a system of interleaved atomic claims and finishes
  (`Scheduler`), the metrics as an incremental form of a function of the whole log (`Telemetry`),
  the request budget and TTL cache against their full histories (`SourceCache`), and the requests
  that combine them, with the locked sections of any number of requests interleaved (`Discovery`).
- **The decision layer.** Cross-exchange consensus (`Consensus`), the assembly of a signal
  (`Signals`), short plans (`Planning`) and their evaluation over bars (`Backtest`).

`Basics`, `Streams`, `Ordering`, `Reals` and `Rounding` hold what the others share. Code that loops
or changes fields is a method or a class here and is proved equal to a function; functions and
lemmas then speak about that function. The members called `...Exactly` and `...Meaning` say what an
operation computes in prices, times, counts and candle indices alone, through predicates that the
operation itself does not use.

## How the source is represented

- `Decimal` and `float` are exact reals. `quantize` is written out as half-even rounding
  (`Rounding.Quantize`) wherever the source calls it, including the rounded body fraction that the
  break machine compares.
- Datetimes are integers (seconds for candles, ticks for the scheduler) and always aware; a candle
  closes one interval after it opens. A schedule's seconds are whole ticks.
- SHA-derived identifiers are the tuples they are computed from, so equal identifiers mean equal
  inputs. Where the source orders by identifier, the order is a parameter (`Ranks`) and every
  result holds for all orders.
- Records that a constructor would refuse are excluded by subset types (`Candle`, `Zone`, `Event`,
  the rule types, `SignalRequest` with its mapped Bybit market) or reported as `Err`; the 1e-18
  price floors of the evidence records are kept. "Never raises" therefore asks that the lows, padded
  where zones are built, clear the floor (`SupportZones.Buildable`, `RuntimeAnalysis.ClearsFloor`),
  which a caller can check on the candles.
- Reason strings are left out, except the bar count of a closing event. `SUCCESSFUL_RECLAIM` and
  the other states keep their names in Dafny spelling; `INVALIDATED` of the classifier is
  `PullbackExceeded`, and the evidence statuses `RECLAIMED` and `INVALIDATED` are `Recovered` and
  `Lapsed`.

## What the proofs turn up

- A zone padding of zero makes zone derivation raise for a cluster of equal lows
  (`SupportZones.DerivationRaisesExactly` gives the exact condition, `SupportZones.TwinLowsRaise` a
  stream of five candles).
- Pivots of a growing stream only accumulate exactly when the minimum separation is at most one
  more than the right window (`Pivots.AccumulationCondition`); otherwise the last one can move.
- An EXPIRED setup can return as CONTINUATION exactly when the continuation minimum exceeds the age
  limit and the pullback window has at least three bars (`ReclaimFinality.ExpiryFinality`).
- A QUALIFIED continuation can be withdrawn by the next candle, without a retest, exactly when the
  pullback window is longer than both three bars and the continuation minimum; the default rules
  allow it (`ReclaimFinality.ContinuationFinality`).
- A JSON `null` payload is stored but fetched again (`Discovery.NullFetchedTwice`): a stored payload
  is served exactly when it is not null, is the last one stored for its key, and has not expired
  (`Discovery.ServedFromCache`, `Discovery.ServedExactly`).
- The only exception that escapes signal assembly is a non-positive entry that reaches the entry
  gate (`Signals.AssembleSignal`; `Signals.ZeroEntryEscapes` is such a request).
- The running-peak drawdown is the drop of some pair of equity values, but not always the largest:
  it is exactly when equity never goes negative, or its worst fall is from the initial 100 before
  it held any other positive value (`Backtest.DrawdownExact`). `Backtest.NegativeEquityMisses` has
  two returns on which a larger drop is missed.
- docs/ASSEMBLY.md (line 91) says that gates after a failed one are skipped. That holds exactly
  unless structure is the first obstacle (`Signals.AssembleSignal`); then structure, setup
  classification and flow are all recorded as failed, and only the gates after flow are skipped
  (`Signals.LaterGateNotSkipped` is such a request). The model follows the code.

## Model

| member | source | states |
|---|---|---|
| Candles.CheckStream | app/structure/support_zones.py:80-96 | the adjacent-pair pass accepts exactly the streams of one market and interval in strict time order |
| Rounding.QuantizeBounds | app/structure/structure_events.py:212-218 | half-even rounding never crosses a grid point, so rounded fractions and scores stay in their ranges |
| Rounding.QuantizeExact | app/structure/structure_events.py:212-218 | a quantized value is the multiple of the step nearest to the exact one, the even multiple when two are equally near |
| Pivots.IsPivotLow | app/structure/support_zones.py:111-119 | comparing with the two window minima is the window-by-window definition of a qualifying low |
| Pivots.QualifiesExactly | app/structure/support_zones.py:111-119 | a low qualifies exactly when nothing in its two windows is lower and not both windows hold an equal low |
| Pivots.FindPivots | app/structure/support_zones.py:99-125 | the append-or-overwrite loop computes the thinned pivots of the stream |
| Pivots.ThinningKept | app/structure/support_zones.py:120-125 | kept pivots qualify, come from the stream and are at least the minimum separation apart |
| Pivots.ThinningCovers | app/structure/support_zones.py:120-125 | every qualifying low is answered for by the first kept pivot less than a separation older, priced no higher, and strictly lower if it came later |
| Pivots.PivotsThinned | app/structure/support_zones.py:99-125 | spacing and coverage for all pivots of any stream |
| Pivots.PivotsGrow | app/structure/support_zones.py:99-125 | on a longer stream all but the last pivot are frozen and the last only moves later and lower; with a small separation the pivots of a prefix are a prefix |
| Pivots.UndercutReplaces | app/structure/support_zones.py:121-123 | for every larger separation, a stream on which a kept pivot is replaced |
| Pivots.AccumulationCondition | app/structure/support_zones.py:99-125 | pivots of every prefix are a prefix exactly when the separation is at most the right window plus one |
| Ordering.MedianRises | app/structure/support_zones.py:149-154 | appending a largest element never lowers the median |
| Ordering.MedianPermutes | app/execution/consensus.py:219 | the median depends only on the collection of prices |
| Ordering.MedianIsMiddle | app/structure/support_zones.py:149-154 | twice the median is the sum of the two middle prices of any ascending arrangement |
| Clusters.EqualPriceJoins | app/structure/support_zones.py:141-144 | a pivot priced like a cluster's newest member is within the tolerance of its median, so equal prices never split |
| Clusters.ClusteringTheorem | app/structure/support_zones.py:128-146 | clusters read in order are the sorted pivots, none lost or repeated; each is built within tolerance, and each next one starts above all prices of the last and more than the tolerance above its final median |
| Clusters.ClusteringInPrices | app/structure/support_zones.py:128-154 | the same in prices: each member after the first lies within the tolerance of the median of those before it, and the next cluster starts dearer and outside the tolerance |
| Clusters.PriceRangesSeparate | app/structure/support_zones.py:128-146 | any two clusters have strictly separated price ranges |
| Clusters.ClusterPivots | app/structure/support_zones.py:128-146 | the loop over the sorted pivots computes the clusters |
| SupportZones.ZoneValidity | app/structure/support_zones.py:164-222 | apart from its two price edges every field of a zone passes the record's checks, and its strength is in [49, 100] |
| SupportZones.StrengthRange | app/structure/support_zones.py:182-189 | touches, rejections and recency give a capped and rounded score between 49 and 100 |
| SupportZones.ZoneRaisesExactly | app/structure/support_zones.py:157-222 | building a zone raises exactly for a cluster with enough touches and narrow enough whose padded low is under the floor, or of equal lows with zero padding |
| SupportZones.ZonesRaiseExactly | app/structure/support_zones.py:63-67 | the list of zones fails exactly when one of its records is refused |
| SupportZones.DerivationRaisesExactly | app/structure/support_zones.py:54-96 | deriving zones raises exactly for a first candle of another interval, a stream of mixed market or order, or a refused cluster of its pivots, and which of the three |
| ZoneMeaning.RefusedExactly | app/structure/htf_models.py:63-116 | a cluster is refused exactly when its padded range is within the width limit and its low edge is under the floor or it has no width |
| ZoneMeaning.ClusterYields | app/structure/support_zones.py:157-222 | a cluster that is not refused becomes a zone exactly when it has enough touches and a padded range within the width limit, and the zone shows it |
| ZoneMeaning.ZoneShows | app/structure/support_zones.py:164-222 | the record of a cluster holds its padded lows, first and last pivot, the close of the last right window, its touches, bounces and open times, and the exact rounded strength |
| ZoneMeaning.DerivationExactly | app/structure/support_zones.py:54-77 | the returned zones are the best, in order of strength, last test, height and identifier, of exactly one zone for each cluster that qualifies |
| SupportZones.TwinLowsRaise | app/structure/support_zones.py:157-222 | a stream with two equal pivot lows and zero padding on which it raises |
| SupportZones.ZoneWitnessed | app/structure/support_zones.py:190-192 | every evidence low lies inside the zone and its full right window closed by the confirmation time |
| SupportZones.SameIdSameZone | app/structure/support_zones.py:193-201 | two zones of one stream with the same identifier are the same zone |
| SupportZones.DerivedZonesSound | app/structure/support_zones.py:54-77 | under any rules every returned zone satisfies the record's invariants, contains its evidence lows, is no wider than allowed, scores in [49, 100] and is identified by its id |
| SupportZones.DerivationNeverRaises | app/structure/support_zones.py:54-77 | for padding strictly between 0 and 10000 bps and lows that clear the floor, deriving zones from a Daily or 4H stream never raises |
| SupportZones.TopRanked | app/structure/support_zones.py:68-77 | the returned zones are the top of the ranking, in order; nothing left out precedes them |
| SupportZones.DeriveZones | app/structure/support_zones.py:54-77 | the engine from checks to ranked zones computes that result, error cases included |
| StructureEvents.RunMachine | app/structure/structure_events.py:58-146 | the four-variable loop computes the events defined by first occurrences |
| StructureEvents.BuildEvents | app/structure/structure_events.py:46-146 | input checks, the filter on confirmation time, the machine and the record checks together |
| EventMeaning.RunsFrom | app/structure/structure_events.py:54 | the machine runs on the candles from the first that opens no earlier than the confirmation |
| EventMeaning.StartsAfterConfirmation | app/structure/structure_events.py:54 | in a contiguous stream that is the candle right after the confirming one |
| EventMeaning.RefusesStream | app/structure/structure_events.py:46-53 | a stream of another market, interval or order is refused, and only that |
| EventMeaning.EventsExactly | app/structure/structure_events.py:58-283 | an event is listed exactly when it happens at a candle, in prices: first close under the zone, break, expiry or first close above after a break, with its rounded distance, body and volume ratio, bar count and link; the list is in time order |
| EventMeaning.EndingExactly | app/structure/structure_events.py:58-146 | each last state of a zone holds exactly when the candles say so |
| StructureEvents.EventsOnlyAccumulate | app/structure/structure_events.py:63-146 | for a fixed zone the events of a prefix are a prefix of the events of the whole |
| StructureEvents.NoLookAhead | app/structure/structure_events.py:46-146 | the same for the candle stream given to the engine |
| StructureEvents.EventsFollowEvidence | app/structure/structure_events.py:54 | every event candle lies strictly after the full right window of every evidence pivot |
| StructureEvents.EventsWellShaped | app/structure/structure_events.py:63-146 | every list is an optional pending break, then optionally an invalidation or a confirmed break that is optionally closed by an event linked to it |
| StructureEvents.BrokenEnding | app/structure/structure_events.py:121-144 | after a break the list ends in it exactly when no later close is above the zone, and in a fake break or a reclaim according to whether the first such close is within the window |
| StructureEvents.ExpiredEnding | app/structure/structure_events.py:106-118 | a zone that ages out before any confirmed break ends invalidated |
| StructureEvents.UnsettledEnding | app/structure/structure_events.py:90-105 | otherwise the list is a single pending break, or empty, according to whether any candle closed under the zone |
| EventMeaning.DamageMeaning | app/structure/structure_events.py:54-146 | the list ends in a confirmed break exactly when, at some candle after the confirmation, the zone broke and no later candle closed above it |
| StructureEvents.EventsAccepted | app/structure/htf_models.py:153-198 | every event satisfies all checks of its record |
| StructureEvents.EventHasCandle | app/structure/structure_events.py:238-283 | every event names one of the candles, its zone and the identifier computed from both |
| HtfEngine.AnalysisNeverRaises | app/structure/htf_engine.py:11-63 | the analysis of a buildable Daily or 4H batch never raises |
| HtfEngine.AnalysisIsSound | app/structure/htf_engine.py:19-63 | under any rules the zones of an analysis are sound and its events are exactly the events of its zones |
| HtfEngine.EvidenceMeaning | app/structure/htf_engine.py:28-53 | every evidence status, in prices of the batch after the primary zone's confirmation: damaged, recovered, lapsed, watch, intact, or insufficient without zones |
| HtfEngine.PrimaryMeaning | app/structure/htf_engine.py:28-63 | the primary zone ends with the evidence and no zone ends later; of those seen together it is the strongest; without events it is the first zone and the evidence is as old as the batch |
| HtfEngine.EventsInOrder | app/structure/htf_engine.py:45 | the merged events are in time order |
| HtfEngine.DamagedByBreak | app/structure/htf_engine.py:28-53 | damaged evidence is a confirmed break of the analysis, observed at the evidence's time |
| HtfEngine.EvidenceIsLatest | app/structure/htf_engine.py:28-37 | no event of any zone is observed after the evidence |
| HtfEngine.AnalyzeTimeframe | app/structure/htf_engine.py:11-63 | the zone loop and the selection compute the analysis, error cases included |
| ReclaimEngine.SuccessfulReclaimIndex | app/setups/reclaim_engine.py:304-323 | the counter loop returns the least index that ends a run of the required consecutive closes above the zone |
| ReclaimEngine.CheckConfirmationStream | app/setups/reclaim_engine.py:286-301 | the loop accepts exactly the chronological 4H or 15m streams of the zone's market |
| ReclaimRecords.ReclaimSafety | app/setups/reclaim_engine.py:60-88 | a successful reclaim is reported exactly when such a run exists, at the least index that ends one, and nothing qualifies on a stream that contains one |
| ReclaimRecords.QualityRange | app/setups/reclaim_engine.py:428-488 | the quality score is in [0, 100] |
| ReclaimRecords.QualityWeights | app/setups/reclaim_engine.py:437-478 | what each of the five components is worth at its best and worst, under all rules |
| ReclaimRecords.QualityMonotone | app/setups/reclaim_engine.py:428-488 | shallower, sharper, faster, quieter or triggered pullbacks never score lower; a missing volume ratio ranks between one over the limit and one within it |
| ReclaimRecords.ContinuationAccepted | app/setups/reclaim_engine.py:362-425 | a continuation record is accepted and its quality is in [55, 72] |
| ReclaimRecords.EveryRecordAccepted | app/setups/reclaim_models.py:136-243 | the record of every return path satisfies every invariant of `ReclaimAttempt` |
| ReclaimRecords.EngineNeverRaises | app/setups/reclaim_engine.py:262-301 | the engine accepts exactly the zone's own confirmed break with its candle and a 4H or 15m stream of the market in time order, and raises otherwise |
| ReclaimMeaning.OutcomeExactly | app/setups/reclaim_engine.py:59-259 | every outcome, in prices: reclaimed by consecutive closes above, rejected at the first candle that turns back within the window, failed exactly when a later close is under that candle's low, still open, exceeded, continued, expired or untested |
| ReclaimFigures.RecordExactly | app/setups/reclaim_engine.py:59-488 | every record: the candles it covers, highest price, depth, counts, volume ratio, rejection and trigger candles, state, and the score from its five components |
| ReclaimFigures.EmptyRecord | app/setups/reclaim_engine.py:38-58 | without later candles the record repeats the break |
| ReclaimFigures.EngineExactly | app/setups/reclaim_engine.py:19-58 | the engine classifies exactly the candles from the first that closes after the break was observed |
| ReclaimGrowth.Families | app/setups/reclaim_engine.py:60-136 | which family of outcomes a stream falls into is decided by the reclaim test and the retest test |
| ReclaimGrowth.ClassificationGrows | app/setups/reclaim_engine.py:59-259 | later candles move the classification only forward: a success is final; failed pullbacks and exceeded windows change only to success; failed reclaims only to a failed pullback or success; an attempt never becomes untested again; an expiry is not undone |
| ReclaimGrowth.EngineGrows | app/setups/reclaim_engine.py:19-259 | the same for candles appended to the confirmation stream |
| ReclaimFinality.ExpiryFinality | app/setups/reclaim_engine.py:99-119 | an expiry never becomes a continuation exactly when the continuation minimum is within the age limit or the window holds fewer than three bars |
| ReclaimFinality.ExpiredThenContinued | app/setups/reclaim_engine.py:99-119 | for all other rules, the streams on which it does |
| ReclaimFinality.ContinuationFinality | app/setups/reclaim_engine.py:371-391 | a continuation is kept until a retest or reclaim exactly when the window is at most three bars or at most the continuation minimum |
| ReclaimFinality.ContinuedThenWithdrawn | app/setups/reclaim_engine.py:371-391 | for all other rules, the streams on which it is withdrawn |
| RuntimeAnalysis.SameFirstClose | app/setups/runtime_analysis.py:45-50 | with one required close the classifier and the machine search for the same candle |
| RuntimeAnalysis.ChosenBreakIsLatest | app/setups/runtime_analysis.py:27-34 | the chosen break is a confirmed break, none is observed later, and one is chosen exactly when there is one |
| RuntimeAnalysis.BreakIsLocated | app/setups/runtime_analysis.py:35-43 | the looked-up zone and candle are the break's own |
| RuntimeAnalysis.JoinTheorem | app/setups/runtime_analysis.py:14-50 | for every 4H batch and its own analysis, under any zone and event rules, nothing is raised; a record is returned exactly when some zone broke; it is a successful reclaim exactly when that zone has a fake-break or reclaimed event, and both then name the same candle and the same number of bars |
| RuntimeAnalysis.JoinRecord | app/setups/runtime_analysis.py:35-50 | the returned record classifies the candles after the chosen break against its own zone, under the default rules |
| RuntimeAnalysis.JoinGuards | app/setups/runtime_analysis.py:14-34 | another interval or no break gives no record, and a foreign analysis is refused |
| RuntimeAnalysis.DamagedIsNotReclaimed | app/setups/runtime_analysis.py:14-50 | on damaged 4H evidence the join always returns a record, for a break observed when the evidence was, and never calls it reclaimed, although evidence and join each pick their own zone |
| RuntimeAnalysis.QualifiedZoneStillBroken | app/setups/runtime_analysis.py:14-50 | a qualified short is never derived for a zone with a closing event |
| Scheduler.RuntimeOrchestrator.ClaimDue | app/runtime/scheduler.py:69-86 | the locked loop claims exactly the due jobs in registration order and advances every schedule |
| Scheduler.RuntimeOrchestrator.Release | app/runtime/scheduler.py:162-164 | the final section removes the job from the in-flight set and changes nothing else |
| Scheduler.Register | app/runtime/scheduler.py:34-54 | construction succeeds exactly for unique names and starts unscheduled and idle |
| Scheduler.RunJobOutcome | app/runtime/scheduler.py:112-229 | whatever adapter, clock or store raise, a run yields its own job's outcome; which status each kind of load, clock and store gives, and the exact start and finish times |
| Scheduler.EveryRun | app/runtime/scheduler.py:65-164 | over every interleaving each job has at most one active run, the in-flight set is exactly the active runs, outcomes sit in their slots, and starts of a job are an interval apart even if supplied times go back |
| Scheduler.StartRate | app/runtime/scheduler.py:81-84 | any span of length L holds at most floor(L / interval) + 1 starts of a job |
| Scheduler.ClaimedExactly | app/runtime/scheduler.py:69-86 | after any run a call claims a job exactly when it is idle and its delay after the first call, or an interval since its last start, has passed |
| Scheduler.FinishKeeps | app/runtime/scheduler.py:162-164 | a finish keeps all of that, puts the run's outcome in its slot, and the job leaves the in-flight set |
| Scheduler.CallReturns | app/runtime/scheduler.py:70-94 | every call claimed, in registration order, exactly the jobs due on the board at its own claim, and has one outcome slot for each |
| Telemetry.RuntimeMetrics.Observe | app/runtime/telemetry.py:50-80 | the loop computes the fold of the log and its alerts, and refuses a threshold under one |
| Telemetry.BatchingIsIrrelevant | app/runtime/telemetry.py:50-80 | any series of calls leaves the metrics, and returns the alerts, of one call with the whole log |
| Telemetry.AlertMeaning | app/runtime/telemetry.py:65-76 | a job's alerts number exactly its maximal failure streaks of at least the threshold |
| Telemetry.AlertsExactly | app/runtime/telemetry.py:65-76 | the alerts are, run by run, one for each failure that is the threshold-th in a row of its job, with its status |
| Telemetry.LastMeaning | app/runtime/telemetry.py:63 | the kept status of a job is that of its last run |
| Telemetry.MetricsTheorem | app/runtime/telemetry.py:50-80 | after any series of calls the counts are those of the whole log and add up to its runs, each counter is the job's trailing failure streak, alerts are its long streaks, and the kept status is that of its last run |
| SourceCache.SlidingWindowBudget.Acquire | app/adapters/source_cache.py:76-84 | the pruning loop and the limit test compute the verdict and the new queue |
| SourceCache.AcquireExact | app/adapters/source_cache.py:76-84 | with a forward clock a request is granted exactly when fewer than the limit were granted in the window over the full history |
| SourceCache.WindowBound | app/adapters/source_cache.py:76-84 | no window of that length, wherever it ends, ever holds more grants than the limit |
| SourceCache.AsyncTtlCache.Get | app/adapters/source_cache.py:36-44 | the lookup answers and removes an expired entry |
| SourceCache.LookupExact | app/adapters/source_cache.py:36-55 | a lookup finds a value exactly when the last store of the key, not cleared since, has not expired |
| Discovery.DiscoveryAdapter.RequestJson | app/adapters/discovery_base.py:60-73 | the three steps in sequence, on the shared cache and budget |
| Discovery.ServeIsThreeMoves | app/adapters/discovery_base.py:60-73 | a whole request is its three sections with nothing between them, whatever other requests are under way |
| Discovery.PlayIsRun | app/adapters/discovery_base.py:60-73 | requests one after another are the interleaving without overlap |
| Discovery.LedgerOfRun | app/adapters/discovery_base.py:70-71 | over every interleaving the budget is that of the attempts alone, and its grants are the network calls |
| Discovery.NetworkBound | app/adapters/discovery_base.py:60-73 | over every interleaving of any number of requests no window holds more network calls than the limit |
| Discovery.GrantedExactly | app/adapters/discovery_base.py:70 | after any interleaving a request goes out exactly when fewer calls than the limit lie in the window, and is refused otherwise |
| Discovery.AnsweredExactly | app/adapters/discovery_base.py:71-73 | an answer ends its own request: a payload is stored and returned, an error passed on, nothing else touched |
| Discovery.ServedFromCache | app/adapters/discovery_base.py:67-72 | over every interleaving a lookup is answered with a payload exactly when it is not null, is the last one stored for the key by any request, and has not expired |
| Discovery.ServedExactly | app/adapters/discovery_base.py:60-73 | one request at a time: a reply is a cache hit exactly when the last fetch of the key returned that payload, not null, less than a time to live ago |
| Discovery.NullFetchedTwice | app/adapters/discovery_base.py:67-72 | two requests for one key that both fetch a null payload |
| Consensus.CollectSources | app/execution/consensus.py:164-211 | the source loop includes exactly the first occurrence of each mapped, matching and healthy source |
| Consensus.NeverRaises | app/execution/consensus.py:267-298 | the missing-median error cannot be reached |
| Consensus.ReportTheorem | app/execution/consensus.py:164-232 | included sources are pairwise distinct and each deviates from the median by at most the dispersion |
| Consensus.ConfirmedIsClose | app/execution/consensus.py:282-310 | a report that allows execution has a validated LBank book, enough sources, any two included prices within the dispersion limit, and a deviation under the degraded limit |
| Consensus.AllowsExactly | app/execution/consensus.py:267-310 | and exactly then is execution allowed |
| Consensus.StatusExactly | app/execution/consensus.py:267-310 | the status of every report from the map, the book, the number and spread of the included prices, and the range its distance from the median falls in |
| Consensus.FiguresExactly | app/execution/consensus.py:213-232 | median, deviations and dispersion as the middle, the distances from it and the whole spread of the included prices |
| Consensus.IncludedExactly | app/execution/consensus.py:164-211 | a source is included exactly when it is the first of its name, carries the mapped symbol and is fresh |
| Consensus.LbankMeaning | app/execution/lbank_validator.py:46-104 | an old or slow book is degraded, a wide or shallow one pending |
| Consensus.HealthMeaning | app/adapters/benchmark_health.py:43-91 | healthy exactly within both age limits, at most a second ahead and quick; stale exactly past an age limit |
| Consensus.OrderIsIrrelevant | app/execution/consensus.py:164-323 | with distinct sources the order of the snapshots changes neither status, median, deviation, dispersion nor usable count |
| Planning.BuiltPlanIsShort | app/planning/service.py:16-39 | a built plan has objective under entry under boundary and a target of ratio times the stop distance |
| Planning.PlanBuiltExactly | app/planning/service.py:16-39 | a plan is built exactly for a positive entry under the boundary, leverage one to five and a target above zero |
| Signals.AssembleSignal | app/signals/service.py:45-385 | status, state of each of the eleven gates and consensus follow from symbols, times and prices of the request alone; ready exactly when every gate passed; a blocked report stops at a failed gate and holds its plan; gates after a failed one are all skipped exactly unless structure is the obstacle, which fails three; a ready one has an ordered plan the backtest accepts, close to the median of benchmarks that agree; only a non-positive entry escapes |
| Signals.GateTests | app/signals/service.py:388-495 | the test of each gate as a comparison of symbols, times or prices |
| Signals.AssembleExecution | app/signals/service.py:151-385 | the same for the execution gates once the structure gates passed |
| Signals.AssembleConsensus | app/signals/service.py:195-302 | the same from the consensus gate on |
| Signals.AssemblePlan | app/signals/service.py:303-385 | the same for the planning and lifecycle gates |
| Signals.StateAt | app/signals/service.py:550-562 | completing an ordered list of decisions keeps it and marks the rest skipped |
| Signals.LaterGateNotSkipped | app/signals/service.py:110-151 | an accepted request, under the default rules, whose structure, setup and flow gates all fail |
| Signals.ZeroEntryEscapes | app/signals/service.py:482-487 | an accepted request, under the default rules, whose zero entry reaches the entry gate |
| Signals.ReadySignal | app/signals/service.py:248-302 | a ready signal has both timeframes damaged, a validated LBank book, benchmarks within the dispersion limit of each other, an ordered plan the backtest accepts, and an entry within e + d + e*d of the benchmark median |
| Backtest.CheckBars | app/backtest/runner.py:41-67 | the pass accepts exactly non-empty chronological series of consistent bars |
| Backtest.RunBacktest | app/backtest/runner.py:92-143 | the loop with early returns evaluates the first bar that touches a level, error cases included |
| Backtest.TouchedExit | app/backtest/runner.py:70-133 | the first bar whose range reaches a level decides: stop exactly when the boundary is reached and, if both are, the policy is conservative; with exit value, time, bar count, and a return of exactly minus the risk or ratio times the risk |
| Backtest.UntouchedExpires | app/backtest/runner.py:135-143 | without such a bar the plan expires at the last close |
| Backtest.ReturnRange | app/backtest/runner.py:70-89 | every backtest of a built plan returns within [-r, ratio * r] for risk r |
| Backtest.ResolvedIsFinal | app/backtest/runner.py:96-133 | a resolved result is unchanged by later bars |
| Backtest.OptimismNeverHurts | app/backtest/runner.py:101-115 | the optimistic policy exits on the same bar, differs only on a conflict, and never returns less |
| Backtest.ComputeMaxDrawdown | app/backtest/metrics.py:6-17 | the loop computes the running-peak drawdown |
| Backtest.EquityIsSum | app/backtest/metrics.py:6-17 | equity is 100 plus the returns so far |
| Backtest.DrawdownAttained | app/backtest/metrics.py:6-17 | it is the drop of some earlier/later pair of equities |
| Backtest.SolventBounds | app/backtest/metrics.py:6-17 | while equity stays non-negative no pair drops further |
| Backtest.DrawdownExact | app/backtest/metrics.py:6-17 | no pair drops further exactly when equity never goes negative or its worst fall is from the initial 100 before any other positive value |
| Backtest.DrawdownCapped | app/backtest/metrics.py:6-17 | it stays within 100 percent exactly when equity never goes negative |
| Backtest.NegativeEquityMisses | app/backtest/metrics.py:6-17 | two returns after which a pair drops further than the computed maximum, so the condition fails |

## Left out

- Exchange and discovery adapters, HTTP clients and field parsing: network shapes, not logic.
- Repositories, stores, retention, migrations, the `persist_*` functions and the overview providers: their behaviour rests on the database.
- Routes, worker entrypoint, settings, logging, notifications and backups: plumbing.
- Decimal context rounding and float rounding: reals are exact; only explicit `quantize` calls round.
- Symbol stripping and upper-casing, categories, roles and turnover: normalisation done once at construction.
- Reason strings and the `warnings` of a reclaim record: text beside the decision.
- `build_metrics` of app/backtest/metrics.py apart from the drawdown, and `RuntimeMetrics.snapshot`: sums and copies.
- Lifecycle transitions after creation, the watchlist, the standalone flow and classifier modules: small tables; the assembly model keeps the structure state and whether the plan activates the lifecycle.
- asyncio internals, cancellation and `BaseException`: a locked section is one step and a run ends with a value or an `Exception`.
- Discovery.DiscoveryAdapter.RequestJson: the method runs its three sections without a pause; their interleaving with other requests is the step system beside it, on values.
- SourceCache.AcquireExact: asks for a clock that never goes back, as the `monotonic` default guarantees.
- Constructors of the budget, the cache and the rule records raise on invalid settings; here those settings are excluded by preconditions or subset types.
- The price and spread checks of LBank validation that its snapshot's constructor already guarantees are not repeated.
