# A verified model of the proxy's scheduling, caching and codec logic

dnscrypt-proxy is a local DNS proxy: it picks an upstream resolver for each query, encrypts the query, filters and
cloaks names, and caches answers. This project models the parts of it where the reasoning is hard and proves what they
promise, for every input, every run and every interleaving.

| files | what they model |
|---|---|
| `Latency`, `TimeGrid`, `MovingAverages`, `Metrics` | the sliding-window metrics of a resolver: a ring of ten epochs proved equal to a recount over the whole log of observations, quantiles read off a histogram, and moving averages in closed form |
| `Scoring`, `Selection`, `DriftingPools`, `ExchangeFeedback` | scores, the tie-band preference and its scan, probing, exploration, the sticky primary, the circuit breaker, and how an exchange feeds them |
| `SchedulerRuns`, `BreakerRuns`, `ProbeRuns`, `LoneProbes`, `ProbationRuns`, `PrimaryRuns`, `Choices` | whole runs of the scheduler, any order of selections and replies: the breaker, its probes and the exchanges they start, recovery probation, the primary; and what one selection returns, case by case, read off the candidates, their circuits and the draws |
| `ClientKeys`, `KeyedServers` | client-key rotation against certificate refresh and encryption: all interleavings at every lock operation, and the critical sections on the objects themselves |
| `NetworkMonitor`, `PqSessions` | network epochs, and post-quantum tickets and ciphertexts across network changes, all interleavings |
| `UdpPool`, `UdpPoolRuns` | the sharded connection pool, and all interleavings of its callers, its cleanup and its shutdown |
| `Names`, `PatternMatcher`, `Undelegated`, `CloakLoops`, `Blocklist` | label suffixes, the rule matcher, the undelegated-zone filter, cloaking loops, and the blocklist generator |
| `ResponseCache` | the response cache on record objects whose TTLs are rewritten in place |
| `Wrappers`, `Wire`, `QuerySizing`, `Framing`, `Dns64` | shared types, padding and query sizes, length-prefixed streams, IPv4 addresses in IPv6 prefixes |

The pattern is the same throughout. A pure function says what an operation computes. Where the program updates things in
place, a class or an array method is proved to compute that function. Lemmas then say what the function means, against
something defined independently of it: a recount of a log, a sorted sequence, a graph, a label order, an inverse.
Concurrent parts are state machines whose steps are the critical sections and lock operations of the source, and their
theorems speak of every state of every run.

## Results about the code

Some promises hold only under a condition, and some comments in the source say more than the code does. The model follows
the code.

- The preference `better` is transitive, and the scan over it finds a true maximum, if and only if the tie band is empty
  (`Selection.BetterTransitiveIff`, `Selection.ScanFindsMaximumIff`). Otherwise the scan loses at most one tie band per
  candidate after the first, and that bound is attained. All of this is so of the scores that pools of resolvers really get
  (`DriftingPools.PoolsTransitiveIff`, `DriftingPools.PoolsScanToMaximumIff`, `DriftingPools.PoolDriftAttained`).
- The undelegated-zone test is exact if and only if no listed zone lies in another (`Undelegated.ExactIffAntichain`).
- The comment on `probing` (dnscrypt-proxy/scheduler_mds.go:78-94) says that the flag is up while one probe is in flight.
  The flag comes down on the resolver's next reply, whichever query that reply answers, so two probes of one resolver can be
  under way at once (`ProbeRuns.TwoProbesUnderWay`), and an answer to an older query can close the circuit
  (`LoneProbes.StrayCloses`). Either can happen if and only if another query of the resolver is under way when the probe goes
  out (`ProbeRuns.ProbesOverlapIff`, `LoneProbes.StrayCloseIff`).
- The comment on `recoverUntilTotal` calls the breaker disarmed during recovery probation. A hard failure ends the probation
  at once and counts as the first of a new streak, so a threshold of one can take two failures
  (`ProbationRuns.ProbationAbsorbsFailure`). `BreakerRuns.OpensAtOnceIff` says exactly when one is enough.
- A ticket is stored if a padded question fits 4096 bytes. When fragments are blocked the limit is 1252 bytes, and a ticket
  of more than 958 bytes, though stored, resumes no question over UDP (`QuerySizing.LongTicketBlocksUdp`).
- A served reply shares its question section with the query it answers; no other record is shared
  (`ResponseCache.Cache.Read`).
- If one source URL is configured twice and downloaded with different contents, the names of both downloads decide what is
  dropped, but only the last one is written: a name of the other is lost (`Blocklist.RefetchedSourceLosesNames`). And the
  suffix loop ends by looking up the empty string, so an empty name in the lists, which the line parsers never produce, would
  blank the output. `Blocklist.PreservesIff` says exactly when the output still blocks what it should.
- A rule such as `=name*` is a prefix rule whose text starts with the equals sign, because the trailing star is looked at first
  (`PatternMatcher.EqualsWithStar`).
- Discovery takes the longest standard prefix with a well-known address behind it. With the zero suffix that section 2.2 of
  RFC 6052 asks for this recovers the resolver's prefix; without it, it may not (`Dns64.SuffixMisleads`).

## Conventions

Latencies and clock readings are nanosecond integers. Scores, averages and weights are exact reals. Counters that Go keeps
in 64 bits are unbounded; the 32-bit failure counter, the 32-bit TTL and the shard hash wrap as in the source. Names are
character sequences and lower-casing is that of ASCII. Clock readings, random draws, fetched certificates, network
snapshots and DNS answers are parameters. Keys are symbolic terms: two keys are equal only when they are derived the same
way. Sealing is a function that adds a tag. Tries and the cache library are maps with longest-prefix lookup; glob matching
is a parameter. Scheduler parameters lie in the ranges that dnscrypt-proxy/config_loader.go:245-325 admits.

## Model

| member | source | states |
|---|---|---|
| `Latency.BuildLatencyBucketEdges` | dnscrypt-proxy/scheduler_metrics.go:181-188 | the loop builds the geometric table: strictly increasing from 1 ms to 10 s, no edge more than 25% above its predecessor |
| `Latency.BucketHoldsLatency` | dnscrypt-proxy/scheduler_metrics.go:192-200 | the index is the one bucket whose half-open interval holds the latency; everything up to 1 ms falls in the first, everything from 10 s up in the last |
| `Latency.BucketMonotone` | dnscrypt-proxy/scheduler_metrics.go:192-200 | a longer latency never falls in an earlier bucket |
| `Latency.EdgeBoundsLatency` | dnscrypt-proxy/scheduler_metrics.go:181-200 | the edge reported for a latency is never below it (under 10 s) and exceeds it by at most a quarter (above 1 ms); outside it is exactly 1 ms or 10 s |
| `Latency.RankInBucket` | dnscrypt-proxy/scheduler_metrics.go:416-422 | the bucket where the cumulative count first reaches a rank holds the element of that rank in the sorted latencies |
| `Latency.Rank` | dnscrypt-proxy/scheduler_metrics.go:412-415 | the rank of a quantile: the least position, at least 1, not below n times p |
| `Latency.QuantileMonotone` | dnscrypt-proxy/scheduler_metrics.go:385-424 | the reported duration never decreases as p grows |
| `TimeGrid.AdvanceOnTime` | dnscrypt-proxy/scheduler_metrics.go:241-262 | the step count computed from the epoch start moves the current epoch to floor((now - t0) / epoch length), with the same slot arithmetic modulo ten |
| `Metrics.WindowByAge` | dnscrypt-proxy/scheduler_metrics.go:241-262 | an observation at most nine epoch lengths old is in the window, one ten or more old is not |
| `Metrics.HistogramCountsLatencies` | dnscrypt-proxy/scheduler_metrics.go:332 | recounting a bucket over the log equals counting the window latencies that fall in it, and the total equals their number |
| `Metrics.AveragesWithinObservations` | dnscrypt-proxy/scheduler_metrics.go:285-293 | the latency average stays between the smallest and the largest observation, the jitter average between zero and their distance |
| `Metrics.AveragesFade` | dnscrypt-proxy/scheduler_metrics.go:267-293 | the averages in closed form over the whole log: a further sample enters with two elevenths and every earlier one keeps nine elevenths of what it had; latency starts from the first sample, jitter, the successive absolute differences, from nothing |
| `MovingAverages.FadedFromAppend` | dnscrypt-proxy/scheduler_metrics.go:289-291 | one step of a moving average is one more value in the closed form |
| `MovingAverages.FadedByPowers` | dnscrypt-proxy/scheduler_metrics.go:272 | the closed form weighs the value of age n with share * (1 - share)^n |
| `Metrics.ConnectionsAddUp` | dnscrypt-proxy/scheduler_metrics.go:324-328 | over any epochs, new and reused connections add up to the samples |
| `Metrics.NeverBoth` | dnscrypt-proxy/scheduler_metrics.go:297-311 | no sample counts as a success and as a failure of any kind |
| `Metrics.OneOfTheTwo` | dnscrypt-proxy/scheduler_metrics.go:297-311 | every sample counts as one of them |
| `Metrics.SeenFirstAndLast` | dnscrypt-proxy/scheduler_metrics.go:279-282 | first and last seen are the clock readings of the first and the last observation |
| `Metrics.RotateKeepsRing` | dnscrypt-proxy/scheduler_metrics.go:256-259 | clearing the next slot moves the ring one epoch forward: each slot holds the recount of its epoch |
| `Metrics.ResetKeepsRing` | dnscrypt-proxy/scheduler_metrics.go:250-254 | clearing all slots after ten or more steps loses nothing that is still in the window |
| `Metrics.RecordKeepsRing` | dnscrypt-proxy/scheduler_metrics.go:295-332 | incrementing the current slot keeps every slot equal to the recount of its epoch over the longer log |
| `Metrics.RecordOutcome` | dnscrypt-proxy/scheduler_metrics.go:295-332 | the increments Observe makes add exactly one to each counter the outcome counts for and to its bucket |
| `Metrics.Rotate` | dnscrypt-proxy/scheduler_metrics.go:256-259 | the rotation loop, in place on the ring |
| `Metrics.ResetAll` | dnscrypt-proxy/scheduler_metrics.go:251-253 | the reset loop, in place on the ring |
| `Metrics.ResolverMetrics.constructor` | dnscrypt-proxy/scheduler_metrics.go:210-223 | an empty store; a non-positive window becomes five minutes; the store is usable exactly when the epoch length is not zero |
| `Metrics.ResolverMetrics.Advance` | dnscrypt-proxy/scheduler_metrics.go:241-262 | brings the ring up to the latest clock reading without losing or inventing an observation; readings that run backwards change nothing |
| `Metrics.ResolverMetrics.Observe` | dnscrypt-proxy/scheduler_metrics.go:265-333 | appends exactly one observation to the log and keeps the ring, the lifetime total, the averages and the first and last readings equal to their recounts |
| `Metrics.ResolverMetrics.Snapshot` | dnscrypt-proxy/scheduler_metrics.go:337-370 | all thirteen counters equal the recount of the log over the current epoch and the nine before it; the lifetime total is the length of the log; averages and first and last readings are those of the log |
| `Metrics.ResolverMetrics.Percentile` | dnscrypt-proxy/scheduler_metrics.go:385-424 | the upper edge of the bucket that holds the nearest-rank element of the window latencies, for every p; no answer exactly when the window is empty |
| `Metrics.AggregateCounts` | dnscrypt-proxy/scheduler_metrics.go:337-362 | the sum over the ring is the recount over the window |
| `Metrics.AggregateBuckets` | dnscrypt-proxy/scheduler_metrics.go:395-408 | the accumulated histogram is, bucket by bucket, the recount over the window |
| `Metrics.RankBucket` | dnscrypt-proxy/scheduler_metrics.go:416-423 | the cumulative scan stops inside the loop; the return after it is unreachable |
| `ExchangeFeedback.HardExactlyWhenFailed` | dnscrypt-proxy/scheduler_feedback.go:62-83 | an exchange is a hard failure exactly when it failed, as a timeout or an error but not both, and is then filed at its deadline |
| `ExchangeFeedback.ClassifiedFields` | dnscrypt-proxy/scheduler_feedback.go:62-83 | what each exchange is recorded as, field by field: a response of 17 to 4096 bytes with its own verdict, client-subnet flag and duration, anything else as a timeout or an error, with the signals of the transport kept |
| `ExchangeFeedback.NotedKeepsBounds` | dnscrypt-proxy/scheduler_feedback.go:87-117 | the failures counted for a server never outnumber its queries, both stay at most 10000, and its average round trip stays between zero and the larger of the initial value and the deadline |
| `ExchangeFeedback.RoundTripsFade` | dnscrypt-proxy/scheduler_feedback.go:100-117 | the average round trip of a server in closed form over all its exchanges: failures and server failures enter as the deadline, measured round trips as they are, bogus and dropped ones not at all |
| `ExchangeFeedback.QueriesCounted` | dnscrypt-proxy/scheduler_feedback.go:88-93 | up to ten thousand queries, every query and every hard failure is counted |
| `ExchangeFeedback.QueriesHalved` | dnscrypt-proxy/scheduler_feedback.go:94-97 | from there on both counters are halved together |
| `ExchangeFeedback.ServerFigures.Note` | dnscrypt-proxy/scheduler_feedback.go:87-117 | the counters with their halving and the round-trip average, in place |
| `ExchangeFeedback.ObserveOutcome` | dnscrypt-proxy/scheduler_feedback.go:53-124 | one observation, one breaker feedback with the lifetime total that includes it, and one update of the published server if there is one; nothing for an exchange without a resolver or a start |
| `Scoring.ScoreAll` | dnscrypt-proxy/scheduler_mds.go:202-281 | the two scoring loops compute the raw figures and normalise them over the pool |
| `Scoring.ScoresRankByTail` | dnscrypt-proxy/scheduler_mds.go:202-281 | costs lie in [0, 1], the fastest tail costs nothing, a slower tail never costs less, penalties only lower a score, and a warming resolver is judged by latency alone |
| `Scoring.PenaltyMonotone` | dnscrypt-proxy/scheduler_mds.go:233-247 | the penalty is never a bonus, and with as many samples more trouble of any kind or more jitter never lowers it |
| `Scoring.SpotlessIsFree` | dnscrypt-proxy/scheduler_mds.go:233-247 | a window without trouble and jitter, or with too few samples to judge, costs nothing |
| `Scoring.TroubleCosts` | dnscrypt-proxy/scheduler_mds.go:236-242 | one more timeout, error, server failure, bogus answer or new connection among as many samples costs exactly its own weight over the samples |
| `Scoring.PairedTroubleCosts` | dnscrypt-proxy/scheduler_mds.go:240-241 | either kind of truncation costs one weight, either kind of fallback another |
| `Scoring.OthersAreFree` | dnscrypt-proxy/scheduler_mds.go:233-247 | successes, reused connections and client-subnet answers cost nothing |
| `Scoring.JitterCosts` | dnscrypt-proxy/scheduler_mds.go:243-246 | jitter costs its weight times its share of the tail latency, at most all of it |
| `Scoring.ScoredFigures` | dnscrypt-proxy/scheduler_mds.go:212-263 | what a scored resolver reports: warming by its samples and its probation, the stamp round trip while warming, three parts average and two parts 95th percentile afterwards, one point of preference per stamp claim and the rate of client-subnet answers |
| `Scoring.ScoresAreGraded` | dnscrypt-proxy/scheduler_mds.go:266-280 | the score is one, less the penalty, less the distance of the tail from the best one as a share of the distance of the worst |
| `Selection.BetterDecides` | dnscrypt-proxy/scheduler_mds.go:305-313 | of two resolvers with different names exactly one is preferred |
| `Selection.BetterTransitiveIff` | dnscrypt-proxy/scheduler_mds.go:305-313 | the preference is transitive if and only if the tie band is empty |
| `Selection.Scan` | dnscrypt-proxy/scheduler_mds.go:435-446 | the survivor of the scan is eligible, and there is none exactly when nobody is eligible |
| `Selection.ScanDriftBound` | dnscrypt-proxy/scheduler_mds.go:305-313 | for k eligible candidates in any order the survivor scores at least the maximum minus k - 1 tie bands |
| `Selection.ScanFindsMaximumIff` | dnscrypt-proxy/scheduler_mds.go:435-446 | the scan finds a true maximum of every list of candidates if and only if the tie band is empty |
| `Selection.ScanDescends` | dnscrypt-proxy/scheduler_mds.go:435-446 | on scores that fall by one tie band each while soft preference rises, the scan ends at the lowest |
| `Selection.TiesGoByName` | dnscrypt-proxy/scheduler_mds.go:305-313 | among resolvers that score and are liked the same the scan takes the first by name, whatever their order |
| `Selection.NameLessAtFirstDifference` | dnscrypt-proxy/scheduler_mds.go:312 | names are compared at the first place where they differ |
| `Selection.ScanDriftAttained` | dnscrypt-proxy/scheduler_mds.go:435-446 | the drift bound is attained for every number of candidates, by distinct names with soft preferences below one |
| `DriftingPools.PoolDriftAttained` | dnscrypt-proxy/scheduler_mds.go:202-300 | it is attained by what scoring produces: for every k whose k - 1 tie bands fit the unit range of costs, a pool of mature resolvers, k of them eligible, on which the scan loses exactly k - 1 tie bands |
| `DriftingPools.PoolsTransitiveIff` | dnscrypt-proxy/scheduler_mds.go:305-313 | the preference is transitive within every scored pool of resolvers if and only if the tie band is empty |
| `DriftingPools.PoolsScanToMaximumIff` | dnscrypt-proxy/scheduler_mds.go:435-446 | the scan finds a true maximum of every scored pool of resolvers if and only if the tie band is empty |
| `Selection.BestHealthy` | dnscrypt-proxy/scheduler_mds.go:435-446 | the loop computes the scan over closed circuits other than the excluded one |
| `Selection.ProbeAmong` | dnscrypt-proxy/scheduler_mds.go:391-407 | the pick is open, not probed, past its probe time, and no such resolver has been open longer |
| `Selection.PickHalfOpenProbe` | dnscrypt-proxy/scheduler_mds.go:391-407 | the loop computes that pick |
| `Selection.ExplorePool` | dnscrypt-proxy/scheduler_mds.go:411-431 | exactly the closed non-primary resolvers, only the warming ones when there are any |
| `Selection.PickExploreTarget` | dnscrypt-proxy/scheduler_mds.go:411-431 | the loop collects that pool |
| `Selection.LBStrategyMDS.constructor` | dnscrypt-proxy/scheduler_mds.go:136-144 | a scheduler without primary, circuits or switches |
| `Selection.LBStrategyMDS.InstallPrimary` | dnscrypt-proxy/scheduler_mds.go:450-458 | a new primary is counted once in total and once under its name; the same primary is not |
| `Selection.LBStrategyMDS.SelectCandidate` | dnscrypt-proxy/scheduler_mds.go:317-387 | index and new state of one selection, for any clock readings and random draws |
| `Selection.LBStrategyMDS.ObserveFeedback` | dnscrypt-proxy/scheduler_mds.go:487-537 | the breaker transition of the named resolver, with its 32-bit failure counter; nothing else changes |
| `SchedulerRuns.RunExists` | dnscrypt-proxy/scheduler_mds.go:317-387 | every sequence of selections and replies has a run from the initial state |
| `SchedulerRuns.RunUnique` | dnscrypt-proxy/scheduler_mds.go:317-387 | and only one |
| `SchedulerRuns.TrailOf` | dnscrypt-proxy/scheduler_mds.go:487-537 | in every run a resolver's circuit moves only on its own replies and on probes sent to it |
| `SchedulerRuns.SelectMovesCircuit` | dnscrypt-proxy/scheduler_mds.go:338-342 | a selection changes a circuit only by marking the probe it sends |
| `Choices.ProbesDue` | dnscrypt-proxy/scheduler_mds.go:336-343 | with several candidates, if some open one is due, the one selected is due and was opened first; its flag goes up and nothing else changes |
| `Choices.Explores` | dnscrypt-proxy/scheduler_mds.go:345-352 | with none due and a draw below the exploration probability, the one selected is closed, is not the primary, and is warming if any such candidate is; nothing changes |
| `Choices.ExploresEvery` | dnscrypt-proxy/scheduler_mds.go:411-431 | every such candidate is selected by some draw |
| `Choices.KeepsThroughDwell` | dnscrypt-proxy/scheduler_mds.go:354-364 | otherwise a closed primary is selected throughout its dwell; nothing changes |
| `Choices.KeepsUnbeaten` | dnscrypt-proxy/scheduler_mds.go:354-371 | and for as long as no closed candidate is ahead of it by the switch margin |
| `Choices.LeavesBeaten` | dnscrypt-proxy/scheduler_mds.go:365-369 | after the dwell it is left for a closed candidate ahead by the margin, if one is ahead by the margin and n - 1 tie bands; that one becomes primary |
| `Choices.LeavesBeatenByAll` | dnscrypt-proxy/scheduler_mds.go:365-369 | and likewise if every other closed candidate is ahead by the margin, be it exactly, when the margin exceeds the tie band |
| `Choices.Replaces` | dnscrypt-proxy/scheduler_mds.go:374-376 | a primary that is gone or open is replaced by a closed candidate within n - 1 tie bands of every closed one |
| `Choices.FallsBack` | dnscrypt-proxy/scheduler_mds.go:377-389 | with every circuit open and none due, the one selected is within n - 1 tie bands of every candidate and becomes primary |
| `Choices.TooFewToWeigh` | dnscrypt-proxy/scheduler_mds.go:318-325 | without candidates nothing happens; a sole candidate is selected and becomes primary |
| `BreakerRuns.AlwaysSound` | dnscrypt-proxy/scheduler_mds.go:487-537 | in every reachable state a probed circuit is open, an open circuit is on no probation, and the failure counter never exceeds the trailing run of hard failures past warmup |
| `BreakerRuns.StreakMeans` | dnscrypt-proxy/scheduler_mds.go:509-519 | the streak the breaker is measured against is the longest run of replies up to now that are all hard failures past warmup |
| `BreakerRuns.OpensOnlyAfterStreak` | dnscrypt-proxy/scheduler_mds.go:509-525 | a circuit opens only on a hard failure that completes at least BreakerThreshold consecutive ones, all past warmup |
| `BreakerRuns.OpensNoLaterThan` | dnscrypt-proxy/scheduler_mds.go:487-525 | on a mature resolver the circuit is open no later than the max(2, BreakerThreshold)-th consecutive hard failure |
| `BreakerRuns.ClosesOnlyOnProbeResponse` | dnscrypt-proxy/scheduler_mds.go:527-536 | a circuit closes only on a response received while the probe flag is up, and then starts a full probation with a cleared counter |
| `BreakerRuns.ProbesSpaced` | dnscrypt-proxy/scheduler_mds.go:391-407 | between two probes of one resolver lies an opening or a hard failure with the probe flag up, at least HalfOpenInterval before the second |
| `BreakerRuns.FlagSinceProbe` | dnscrypt-proxy/scheduler_mds.go:338-342 | while the probe flag is up the resolver has had no reply since the probe that raised it |
| `BreakerRuns.OpensAtOnceIff` | dnscrypt-proxy/scheduler_mds.go:500-523 | in every run, with a threshold of one, a hard failure of a mature closed resolver opens its circuit if and only if the circuit did not close fewer than WarmupSamples replies ago with no hard failure since |
| `ProbationRuns.ProbationAbsorbsFailure` | dnscrypt-proxy/scheduler_mds.go:500-508 | a run with threshold one and a clock that never runs backwards, on which a mature closed resolver fails and stays closed |
| `ProbeRuns.NoSecondProbe` | dnscrypt-proxy/scheduler_mds.go:338-343 | in every run with matched replies, if no other query of the resolver is under way when a probe goes out, it is not probed again before that probe is answered, while selections have a closed candidate to turn to |
| `ProbeRuns.ProbesOverlapIff` | dnscrypt-proxy/scheduler_mds.go:491-499 | a probe can be followed by a second one before it is answered if and only if another query of that resolver is under way when it goes out |
| `ProbeRuns.TwoProbesUnderWay` | dnscrypt-proxy/scheduler_mds.go:491-499 | a run on which a resolver is probed while an earlier probe of it has no answer |
| `LoneProbes.FirstReplyIsAnswer` | dnscrypt-proxy/scheduler_mds.go:338-343 | in every run with matched replies, after a probe that goes out with no other query of the resolver under way, the first reply of that resolver is the answer to the probe, while selections have a closed candidate to turn to |
| `LoneProbes.NextProbeWaits` | dnscrypt-proxy/scheduler_mds.go:491-499 | the next probe comes after the answer to such a probe, and at least HalfOpenInterval after that answer or a later opening |
| `LoneProbes.ClosedByOwnAnswer` | dnscrypt-proxy/scheduler_mds.go:527-536 | a circuit closes on the first reply after some probe, a response, which is that probe's own answer if no other query of the resolver was under way when the probe went out |
| `LoneProbes.StrayCloseIff` | dnscrypt-proxy/scheduler_mds.go:527-536 | a probe can be followed by the circuit closing on the answer to another query if and only if another query of that resolver is under way when it goes out |
| `LoneProbes.StrayCloses` | dnscrypt-proxy/scheduler_mds.go:527-536 | a run on which a circuit closes on the answer to a query sent before it opened, its probe unanswered |
| `BreakerRuns.OpenSince` | dnscrypt-proxy/scheduler_mds.go:517-523 | an open circuit remembers the event of the run that opened it |
| `BreakerRuns.LongestOutageFirst` | dnscrypt-proxy/scheduler_mds.go:391-407 | in every run a probe goes to the longest outage: any other candidate that was due as well opened no earlier |
| `BreakerRuns.OpenSelectedOnlyAsProbe` | dnscrypt-proxy/scheduler_mds.go:338-387 | with two or more candidates, one of them closed, an open resolver is selected only as a due probe |
| `PrimaryRuns.SwitchOnlyFor` | dnscrypt-proxy/scheduler_mds.go:338-387 | probes and explorations never move the primary; a closed incumbent among several candidates is left only after its dwell and for a challenger ahead by the margin |
| `PrimaryRuns.SettlesNearBest` | dnscrypt-proxy/scheduler_mds.go:355-387 | for n candidates a new primary scores no worse than any closed candidate but for n - 1 tie bands, a primary kept past its dwell no worse but for the margin besides |
| `PrimaryRuns.VoluntarySpaced` | dnscrypt-proxy/scheduler_mds.go:355-372 | a voluntary switch comes at least a dwell after any earlier switch of the run |
| `PrimaryRuns.VoluntaryRate` | dnscrypt-proxy/scheduler_mds.go:355-372 | at most L / Dwell + 1 voluntary switches fall in any interval of length L of any run |
| `PrimaryRuns.SwitchesAddUp` | dnscrypt-proxy/scheduler_mds.go:450-458 | in every reachable state the total number of switches is the sum over the resolvers |
| `PrimaryRuns.SwitchesTallied` | dnscrypt-proxy/scheduler_mds.go:450-458 | in every reachable state the tallies are the numbers of changes of the primary so far, in total and to each resolver |
| `ClientKeys.WithKey` | dnscrypt-proxy/crypto.go:94-104 | a classic server gets the key of the given secret, every other server stays as it is |
| `ClientKeys.StepKeeps` | dnscrypt-proxy/crypto.go:117-131 | every lock operation, recomputation, publication and read keeps the locking and keying invariant |
| `ClientKeys.PublishedServersHaveCurrentKey` | dnscrypt-proxy/serversInfo.go:371-399 | in every interleaving, whenever no rotation is half done, each published classic server has a key derived from the current client secret |
| `ClientKeys.QueriesSendMatchingKey` | dnscrypt-proxy/crypto.go:176-182 | in every interleaving, a query on a published classic server sends the public key that matches the shared key it encrypts with |
| `ClientKeys.NeverDeadlocked` | dnscrypt-proxy/crypto.go:117-179 | in every reachable state with a thread in the middle of a refresh, a rotation or a query, some such thread can go on |
| `KeyedServers.Proxy.SetClientKey` | dnscrypt-proxy/crypto.go:87-90 | installs a secret and its public key |
| `KeyedServers.Proxy.RecomputeServerSharedKey` | dnscrypt-proxy/crypto.go:94-104 | rewrites the key of one server object in place |
| `KeyedServers.Proxy.Rotate` | dnscrypt-proxy/crypto.go:117-131 | after the loop every published server is keyed with the new secret, whatever the state before, and only shared keys have changed |
| `KeyedServers.Proxy.Publish` | dnscrypt-proxy/serversInfo.go:380-399 | the fetched server replaces its namesake or joins at the end, keyed with the current secret whatever key the fetch saw |
| `KeyedServers.Proxy.ReadKeys` | dnscrypt-proxy/crypto.go:176-182 | the two keys read under the lock belong to the same secret |
| `NetworkMonitor.EpochCountsChanges` | dnscrypt-proxy/netmon.go:83-118 | after any sequence of calls, failed snapshots included, the epoch is the number of adjacent differing successful snapshots |
| `NetworkMonitor.Watcher.TakeSample` | dnscrypt-proxy/netmon.go:99-118 | a sample replaces the fingerprint and advances the epoch only on a notified change; a failed snapshot does nothing |
| `NetworkMonitor.Watcher.CheckOnce` | dnscrypt-proxy/netmon.go:83-97 | the first check sets the baseline, later ones notify |
| `NetworkMonitor.Watcher.InitOnce` | dnscrypt-proxy/netmon.go:48-61 | sets the baseline once |
| `PqSessions.ControlExact` | dnscrypt-proxy/pq.go:316-331 | a control block is accepted as a grant if and only if it starts with the encoding of that grant and the ticket leaves room for a padded question |
| `PqSessions.SessionState.Keep` | dnscrypt-proxy/pq.go:151-161 | ticket, secret, expiry and epoch are stored together |
| `PqSessions.SessionState.Get` | dnscrypt-proxy/pq.go:163-179 | returns an unexpired ticket of the current epoch with its secret, and forgets a live one of another epoch |
| `PqSessions.SessionState.GetCachedEncapsulation` | dnscrypt-proxy/pq.go:181-196 | returns the ciphertext of the current epoch with its key, and forgets one of another epoch |
| `PqSessions.LookupForgets` | dnscrypt-proxy/pq.go:163-179 | after a ticket lookup in one epoch, exactly the lookups that would have succeeded before and whose ticket is of that epoch still succeed |
| `PqSessions.EncapLookupForgets` | dnscrypt-proxy/pq.go:181-196 | and likewise for the ciphertext |
| `PqSessions.SessionState.StoreEncapsulation` | dnscrypt-proxy/pq.go:198-207 | ciphertext, key and epoch are stored together |
| `PqSessions.StepKeeps` | dnscrypt-proxy/pq.go:240-285 | every critical section of queries, responses and network changes keeps what is held traceable to the query that obtained it |
| `PqSessions.ResumptionStaysInEpoch` | dnscrypt-proxy/pq.go:253-265 | in every interleaving a resumed query uses a ticket with the secret stored with it, before the granted lifetime has passed since it was stored, granted by the same server to a query that began in the same network epoch |
| `PqSessions.GrantedInEpoch` | dnscrypt-proxy/pq.go:331-338 | in every run a grant is taken up only from a response that carries it and only if the network has not changed since its query began |
| `PqSessions.GrantIsUsed` | dnscrypt-proxy/pq.go:253-262 | a grant taken up and stored lets the next query to that server in that epoch resume with its secret, if and only if the ticket is not empty and the granted lifetime has not passed |
| `PqSessions.CiphertextStaysInEpoch` | dnscrypt-proxy/pq.go:268-276 | in every interleaving, queries that share a ciphertext share server, key and network epoch |
| `PqSessions.EpochIsChangeCount` | dnscrypt-proxy/netmon.go:83-118 | in every interleaving the epoch a query starts in is the number of adjacent differing successful snapshots |
| `UdpPool.GetShard` | dnscrypt-proxy/udp_conn_pool.go:47-53 | the hash loop, modulo 2^32, picks one of the shards |
| `UdpPool.HashIsNumber` | dnscrypt-proxy/udp_conn_pool.go:47-53 | the hash is the address read as digits to the base 31, modulo 2^32 |
| `UdpPool.ShardIsNumber` | dnscrypt-proxy/udp_conn_pool.go:47-53 | the shard is that hash modulo 64 |
| `UdpPool.PoolShard.Take` | dnscrypt-proxy/udp_conn_pool.go:100-110 | pops the connection returned last, if there is one |
| `UdpPool.PoolShard.Offer` | dnscrypt-proxy/udp_conn_pool.go:134-144 | pushes unless four connections are pooled already |
| `UdpPool.PoolShard.RemoveStale` | dnscrypt-proxy/udp_conn_pool.go:71-91 | keeps the connections used recently enough, in order, and closes exactly the others |
| `UdpPoolRuns.StepKeeps` | dnscrypt-proxy/udp_conn_pool.go:96-171 | every step of every caller keeps the shelf, the hand-over, the locks and the shutdown in order |
| `UdpPoolRuns.PooledExactlyOnce` | dnscrypt-proxy/udp_conn_pool.go:96-151 | in every interleaving a connection is in exactly one place; a pooled one occurs exactly once, at one address, in that address's shard |
| `UdpPoolRuns.AtMostFour` | dnscrypt-proxy/udp_conn_pool.go:134-144 | no address ever pools more than four connections |
| `UdpPoolRuns.ReusedWasPooled` | dnscrypt-proxy/udp_conn_pool.go:96-114 | the connection Get takes from the pool was pooled at that address until then, so neither closed nor held, and is the caller's from then on |
| `UdpPoolRuns.EmptyAfterClose` | dnscrypt-proxy/udp_conn_pool.go:153-171 | once some Close has returned every shard is empty for good, whatever Puts were racing with it |
| `UdpPoolRuns.NeverDeadlocked` | dnscrypt-proxy/udp_conn_pool.go:96-171 | in every reachable state with a thread in the middle of a call, some such thread can go on |
| `UdpPoolRuns.LastReturnedFirstTaken` | dnscrypt-proxy/udp_conn_pool.go:96-171 | a connection returned to the pool is the one the next Get for that address takes, and the row is then as before |
| `Names.StringReverse` | dnscrypt-proxy/common.go:108-114 | swapping from both ends reverses the string |
| `Names.SuffixKeyExact` | dnscrypt-proxy/pattern_matcher.go:111-113 | with a dot after both reversed strings the trie prefix test is exactly the label-suffix test |
| `Names.LongestPrefix` | dnscrypt-proxy/pattern_matcher.go:131-138 | the longest stored prefix of a string, or none |
| `PatternMatcher.IsGlobCandidate` | dnscrypt-proxy/pattern_matcher.go:43-52 | a pattern is a glob when it has a wildcard other than a star at either end |
| `PatternMatcher.IsGlobIff` | dnscrypt-proxy/pattern_matcher.go:43-52 | a wildcard counts anywhere, except a star at either end |
| `PatternMatcher.ContainsIff` | dnscrypt-proxy/pattern_matcher.go:122-153 | a substring rule matches a name that has its text somewhere |
| `PatternMatcher.LowerByTable` | dnscrypt-proxy/pattern_matcher.go:101 | lower-casing changes the twenty-six capital letters and nothing else |
| `PatternMatcher.TriedInOrder` | dnscrypt-proxy/pattern_matcher.go:122-153 | exact, then suffix, prefix, substring and glob rules |
| `PatternMatcher.ParseReads` | dnscrypt-proxy/pattern_matcher.go:54-101 | whatever is accepted is a non-empty text in one of the spellings of its kind |
| `PatternMatcher.ParseUndoesSpelling` | dnscrypt-proxy/pattern_matcher.go:54-101 | every spelling of a plain text is read back as that kind and text |
| `PatternMatcher.EqualsWithStar` | dnscrypt-proxy/pattern_matcher.go:75-88 | a rule with a leading equals sign and a trailing star is a prefix rule whose text keeps the equals sign |
| `PatternMatcher.BuiltFaithful` | dnscrypt-proxy/pattern_matcher.go:101-119 | for every list of rules the tables hold exactly the rules, each under its kind, with a value given for that text |
| `PatternMatcher.LookupMatchesRules` | dnscrypt-proxy/pattern_matcher.go:122-153 | for every list of rules and every name of two or more characters, Eval matches exactly when some rule matches by its own kind; it reports a rule of the first kind that matches, the longest one for suffixes and prefixes |
| `PatternMatcher.Matcher.Add` | dnscrypt-proxy/pattern_matcher.go:54-120 | a malformed rule is rejected without effect, any other is accepted under the kind and text it denotes |
| `PatternMatcher.Matcher.Eval` | dnscrypt-proxy/pattern_matcher.go:122-153 | the lookup cascade and the reason it reports |
| `PatternMatcher.Matcher.ScanList` | dnscrypt-proxy/pattern_matcher.go:140-150 | the scanning loop finds the first listed match |
| `Undelegated.BlockedIsCovered` | dnscrypt-proxy/plugin_block_undelegated.go:192-206 | no name outside the listed zones is ever blocked |
| `Undelegated.CoveredIsBlocked` | dnscrypt-proxy/plugin_block_undelegated.go:192-206 | when no listed zone lies in another, every name in a listed zone is blocked |
| `Undelegated.NestedRulesMiss` | dnscrypt-proxy/plugin_block_undelegated.go:192-206 | for any list with a zone inside another there is a covered name that is not blocked |
| `Undelegated.ExactIffAntichain` | dnscrypt-proxy/plugin_block_undelegated.go:192-206 | one longest match and one boundary test decide membership for every name if and only if no listed zone lies in another |
| `Undelegated.BlockUndelegated.constructor` | dnscrypt-proxy/plugin_block_undelegated.go:174-182 | loads the reversed names |
| `Undelegated.BlockUndelegated.Eval` | dnscrypt-proxy/plugin_block_undelegated.go:192-206 | the longest match and the boundary test |
| `CloakLoops.BuiltIsLinked` | dnscrypt-proxy/plugin_cloak.go:151-157 | a matcher built from the listed rules only ever returns rules |
| `CloakLoops.FollowOnce` | dnscrypt-proxy/plugin_cloak.go:176-183 | one hop of the walk is one edge of the target graph |
| `CloakLoops.EdgesAreMatches` | dnscrypt-proxy/plugin_cloak.go:32-34 | an edge leads from a rule with a name target and no address to the rule its target matches, if that has a name target and no address either; there are no other edges |
| `CloakLoops.AddressEndsChain` | dnscrypt-proxy/plugin_cloak.go:159-164 | a rule with an address is on no cycle and ends every chain |
| `CloakLoops.MutualTargetsAreRefused` | dnscrypt-proxy/plugin_cloak.go:166-202 | two name rules whose targets match each other are refused, and the rule reported is no later in the file than either |
| `CloakLoops.ChainLoops` | dnscrypt-proxy/plugin_cloak.go:173-193 | the walk terminates and finds a revisit exactly when a cycle is reachable |
| `CloakLoops.EndlessIffCycle` | dnscrypt-proxy/plugin_cloak.go:173-193 | a cycle is reachable exactly when the chain of targets is endless, which shows after as many hops as there are rules |
| `CloakLoops.DetectLoops` | dnscrypt-proxy/plugin_cloak.go:166-202 | whatever the order of the rules, the result is an offending rule with the lowest line number, or none exactly when no rule offends |
| `CloakLoops.ErrorIffCycle` | dnscrypt-proxy/plugin_cloak.go:166-202 | an error is reported exactly when the graph of target-following rules has a cycle |
| `CloakLoops.ReportIsDeterministic` | dnscrypt-proxy/plugin_cloak.go:166-202 | with distinct line numbers the rule named does not depend on the order of the walk |
| `CloakLoops.AcceptedChainsEnd` | dnscrypt-proxy/plugin_cloak.go:166-202 | once the rules are accepted, every chain of targets ends within as many hops as there are rules |
| `Blocklist.DroppedIsSuffix` | utils/generate-domains-blocklist/generate-domains-blocklist.py:171-177 | dropping leading labels leaves a proper label suffix |
| `Blocklist.SuffixIsDropped` | utils/generate-domains-blocklist/generate-domains-blocklist.py:171-177 | every proper label suffix arises by dropping leading labels |
| `Blocklist.HasSuffixLoop` | utils/generate-domains-blocklist/generate-domains-blocklist.py:171-177 | the loop answers whether a listed name lies properly above this one (or the empty name is listed) |
| `Blocklist.ProcessList` | utils/generate-domains-blocklist/generate-domains-blocklist.py:318-336 | one list contributes exactly its kept names not emitted before, the names counted as exempt are exempt and under no listed one, and the three counts add up to its length |
| `Blocklist.Deduplicate` | utils/generate-domains-blocklist/generate-domains-blocklist.py:318-336 | the names emitted over all lists are, each exactly once, the listed names that are kept, in any order of lists and names, and each section accounts for every name of its list |
| `Blocklist.LoadBlocklists` | utils/generate-domains-blocklist/generate-domains-blocklist.py:239-253 | the loop keeps the last successful download of each source and the names of all downloads; a failure ends the program unless it is to be ignored |
| `Blocklist.AllNamesAreDownloaded` | utils/generate-domains-blocklist/generate-domains-blocklist.py:245-246 | the names considered are exactly those that some download brought |
| `Blocklist.LastFetchIsListed` | utils/generate-domains-blocklist/generate-domains-blocklist.py:245-246 | what is listed for a source is its last successful download |
| `Blocklist.ListedWasFetched` | utils/generate-domains-blocklist/generate-domains-blocklist.py:245-246 | every listed source has such a download |
| `Blocklist.Generate` | utils/generate-domains-blocklist/generate-domains-blocklist.py:239-336 | from downloads to file: the names written are, each exactly once, the kept names of the last download of each source |
| `Blocklist.WrittenNames` | utils/generate-domains-blocklist/generate-domains-blocklist.py:318-336 | name by name: a name is written if and only if the last download of some source brought it, it is not allowed, and neither an allowed nor a downloaded name lies above it |
| `Blocklist.EmittedIsAntichain` | utils/generate-domains-blocklist/generate-domains-blocklist.py:318-336 | no name of the output lies under another one, over all lists together |
| `Blocklist.KeptAbove` | utils/generate-domains-blocklist/generate-domains-blocklist.py:318-336 | above every downloaded name that is not exempt there is a kept one |
| `Blocklist.PreservesIff` | utils/generate-domains-blocklist/generate-domains-blocklist.py:239-336 | the output blocks everything under a downloaded, non-exempt name if and only if every kept name is in the last download of some source or, when the empty name was downloaded, every downloaded name is exempt |
| `Blocklist.DeduplicationPreservesBlocking` | utils/generate-domains-blocklist/generate-domains-blocklist.py:239-336 | in particular it does when no repeated download of a source loses a name, as when no source is listed twice, and no name is empty |
| `Blocklist.RefetchedSourceLosesNames` | utils/generate-domains-blocklist/generate-domains-blocklist.py:245-246 | a source listed twice and downloaded with different contents: a name of the first download is considered but blocked by nothing written |
| `ResponseCache.CloneRRs` | dnscrypt-proxy/dnsutils.go:263-272 | fresh records with the same values in the same order |
| `ResponseCache.CloneMsg` | dnscrypt-proxy/dnsutils.go:276-285 | a message of fresh records, no two sections sharing one, that reads the same |
| `ResponseCache.GetMinTTL` | dnscrypt-proxy/dnsutils.go:205-239 | the loops over the records compute the lifetime of the message |
| `ResponseCache.LifetimeClamped` | dnscrypt-proxy/dnsutils.go:205-239 | the lifetime is the negative minimum when there is nothing to go by, and otherwise at least the floor and, above it, the lowest of the ceiling and the TTLs of the answer or else authority section |
| `ResponseCache.UpdateTTL` | dnscrypt-proxy/dnsutils.go:241-261 | rewrites in place the TTLs of answer, authority and (but for OPT) additional records to the remaining time, and nothing else |
| `ResponseCache.RoundTTLTracks` | dnscrypt-proxy/dnsutils.go:241-250 | the TTL served is within half a second of the remaining time, never above the lifetime, and never grows |
| `ResponseCache.HalvesRoundUp` | dnscrypt-proxy/dnsutils.go:241-249 | half a second rounds up |
| `ResponseCache.Cache.Write` | dnscrypt-proxy/plugin_cache.go:136-161 | a cacheable response is stored as a private copy with its clamped lifetime and its own TTLs are rewritten; any other changes nothing |
| `ResponseCache.Cache.Read` | dnscrypt-proxy/plugin_cache.go:81-110 | a hit or stale reply is a fresh copy of exactly what was written, with identifier, response flag, question and TTLs of this exchange |
| `ResponseCache.Cache.Evict` | dnscrypt-proxy/plugin_cache.go:136-161 | losing an entry leaves the others as they were |
| `ResponseCache.Cache.Tamper` | dnscrypt-proxy/plugin_cache.go:81-110 | rewriting any record held outside the cache leaves every entry as it was written |
| `ResponseCache.HitTTLs` | dnscrypt-proxy/plugin_cache.go:97-104 | successive hits on one entry: TTLs never grow, stay within half a second of the remaining lifetime and never exceed it |
| `ResponseCache.AnsweredKeeps` | dnscrypt-proxy/plugin_cache.go:90-104 | a reply has the return code, flags and record data of what was written, in order, with the identifier of the query |
| `ResponseCache.FreshTTL` | dnscrypt-proxy/plugin_cache.go:97-104 | a hit is served what is left of the lifetime it was written with, to the nearest second |
| `ResponseCache.CacheableIff` | dnscrypt-proxy/plugin_cache.go:137-142 | what is stored: whole responses that are a success, name nothing or are not authoritative |
| `ResponseCache.StaleTTL` | dnscrypt-proxy/plugin_cache.go:97-99 | a stale answer is given thirty seconds |
| `QuerySizing.Pad` | dnscrypt-proxy/crypto.go:25-31 | the packet, the delimiter, and zeros up to the size |
| `QuerySizing.PqPad` | dnscrypt-proxy/pq.go:116-125 | the same padding to the next multiple of 64 or the floor, filled in place |
| `QuerySizing.Unpad` | dnscrypt-proxy/crypto.go:33-45 | the loop strips trailing zeros and the delimiter |
| `QuerySizing.UnpadUndoesPad` | dnscrypt-proxy/crypto.go:25-45 | unpadding returns the packet, for every packet and size |
| `QuerySizing.UnpadAcceptsOnlyPadding` | dnscrypt-proxy/crypto.go:33-45 | a string unpads to a packet if and only if it is that packet padded to its length |
| `QuerySizing.UnpadRejects` | dnscrypt-proxy/crypto.go:33-45 | the two errors: all zeros, or a last non-zero byte that is not the delimiter |
| `QuerySizing.EncryptClassic` | dnscrypt-proxy/crypto.go:183-214 | succeeds exactly when the question fits; the query then has exactly the computed length, at most 4096, and its sealed body unpads to the packet |
| `QuerySizing.ClassicFits` | dnscrypt-proxy/crypto.go:183-200 | padding never costs a question its place: it fits if and only if it fits the packet limit; over UDP the query reaches the size target unless fragments are blocked |
| `QuerySizing.ClassicLength` | dnscrypt-proxy/crypto.go:183-200 | how long a query is: relayed TCP always 4096 bytes, other TCP the question, its overhead and the random byte rounded up to 64 and cut off at 4096, UDP 1252 bytes if fragments are blocked and otherwise the question or the target, rounded in the same way |
| `QuerySizing.EncryptPQ` | dnscrypt-proxy/pq.go:253-284 | both kinds of query: exact length, error exactly when a UDP query exceeds the limit, sealed body unpads to the packet |
| `QuerySizing.ResumedFits` | dnscrypt-proxy/pq.go:211-235 | the size target never pushes a resumed query over the limit; when it fits it reaches the target or comes within 63 bytes of the limit |
| `QuerySizing.ResumedLength` | dnscrypt-proxy/pq.go:228-235 | nor does the target make it longer than the target rounded up or than the question needs; over TCP there is no target |
| `QuerySizing.StoredTicketResumes` | dnscrypt-proxy/pq.go:328-331 | with fragments allowed every ticket the client stores resumes every question of up to 255 bytes within 4096 bytes |
| `QuerySizing.StorableIff` | dnscrypt-proxy/pq.go:328 | a ticket is stored if and only if it leaves room for some question within 4096 bytes |
| `QuerySizing.LongTicketBlocksUdp` | dnscrypt-proxy/pq.go:217-235 | with fragments blocked a ticket resumes some question over UDP if and only if it has at most 958 bytes |
| `QuerySizing.CarriedFits` | dnscrypt-proxy/pq.go:277-284 | a query that carries its ciphertext has room over UDP for questions of up to 2879 bytes, 63 when fragments are blocked |
| `QuerySizing.CarriedLength` | dnscrypt-proxy/pq.go:264-284 | a query that carries its ciphertext is as long as its question needs, rounded up to 64, whatever the target |
| `QuerySizing.QuestionSizeEstimator.constructor` | dnscrypt-proxy/estimators.go:15-20 | starts at 512 |
| `QuerySizing.QuestionSizeEstimator.BlindAdjust` | dnscrypt-proxy/estimators.go:29-38 | doubles up to 4096; the target stays one of 512, 1024, 2048, 4096 |
| `QuerySizing.QuestionSizeEstimator.Adjust` | dnscrypt-proxy/estimators.go:40-48 | halves exactly when the average response is above 512 and below half the target; the target stays one of the four and above the average it shrank for |
| `QuerySizing.MixedFades` | dnscrypt-proxy/estimators.go:40-43 | the average response size in closed form: every further sample enters with two parts in thirty-one |
| `Framing.ShiftByTwo` | dnscrypt-proxy/common.go:65 | the overlapping copy moves every byte before it is overwritten |
| `Framing.PrefixWithSize` | dnscrypt-proxy/common.go:59-68 | the big-endian length followed by the packet, or an error above 65535 bytes |
| `Framing.Conn.Read` | dnscrypt-proxy/common.go:74 | delivers a prefix of what is still to come, as much as there is room for, possibly along with an error |
| `Framing.ReadPrefixed` | dnscrypt-proxy/common.go:70-92 | the outcome is a function of the bytes that arrive without an error, however they are cut into reads, and no read is issued on an empty buffer |
| `Framing.FrameUndoesPrefix` | dnscrypt-proxy/common.go:59-92 | a stream reads as a packet if and only if it starts with that packet framed and the packet has 17 to 4095 bytes |
| `Framing.RefusedSizes` | dnscrypt-proxy/common.go:79-86 | a framed packet of any other size is refused as too short or too large |
| `Dns64.TranslateToIPv6` | dnscrypt-proxy/plugin_dns64.go:186-198 | in bounds for every prefix of at most 96 bits; the address lands in its octets and every other octet is the prefix's |
| `Dns64.EmbeddingIsExact` | dnscrypt-proxy/plugin_dns64.go:186-198 | embedding is injective and can be read back, and octet 8 is the prefix's own, for every prefix of at most 96 bits |
| `Dns64.DiscoveryExact` | dnscrypt-proxy/plugin_dns64.go:221-236 | a prefix length is found exactly when a well-known address sits behind it and behind no longer standard one |
| `Dns64.DiscoveryRecovers` | dnscrypt-proxy/plugin_dns64.go:221-241 | for each of the six lengths and every prefix that is zero beyond it, an embedded well-known address has exactly that prefix discovered |
| `Dns64.DiscoverySound` | dnscrypt-proxy/plugin_dns64.go:238-241 | what is discovered is a masked standard prefix of the answer with a well-known address behind it |
| `Dns64.SuffixMisleads` | dnscrypt-proxy/plugin_dns64.go:221-236 | an address with a non-zero suffix whose discovered prefix is longer than the one it embeds |
| `Dns64.LearnedExact` | dnscrypt-proxy/plugin_dns64.go:215-250 | the prefixes learned are duplicate-free and exactly those some answer offers |
| `Dns64.PluginDNS64.FetchPref64` | dnscrypt-proxy/plugin_dns64.go:211-259 | the list is replaced as a whole by the prefixes learned, or stays as it is on an error or an empty list |

## Left out

- Sockets, TLS, HTTP and QUIC transports, listeners, service and configuration code, logging, monitoring and file watching.
- Cryptographic primitives, certificate checking, and the random replacement of weak shared keys.
- The DNS message library, the SIEVE eviction policy, the radix and critbit tries, `filepath.Match`.
- Which of several values wins when the same rule text is added twice.
- A server object that a query still holds after a refresh replaced it: key consistency speaks of published servers.
- The ephemeral-key mode of encryption, decryption of responses, and ODoH.
- Parsing of cloaking and block lists, PTR generation, IP rules, weekly schedules, the order of names within an output
  section, and globs in the blocklist generator.
- The pattern named in the text of a cloaking-loop error; the rule named is modelled.
- The list of 151 undelegated zones itself: exactness is proved for any list in which no zone lies in another.
- The strategies that weight servers by latency, and the metric-store registry by name.
- Construction of the interface fingerprint: any non-empty string, equal exactly when nothing changed.
- Synthesis of AAAA records from A records around the address translation, and periodic refresh of DNS64 prefixes.
- CloakLoops.ReportIsDeterministic: requires distinct line numbers, which holds of rules that follow a target because each
  line of the file defines at most one of them.
- PrimaryRuns.VoluntaryRate: requires a positive dwell and a clock that does not run backwards within the run.
- UdpPoolRuns.StepKeeps: the pool is modelled on values, one step per critical section, so that callers can interleave; in
  place updates of one shard are the methods of UdpPool.PoolShard.
- ClientKeys.StepKeeps: server objects are entries of a map so that threads can interleave; in-place updates are the methods
  of KeyedServers.
