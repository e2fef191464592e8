# iPulse: verified models of the monitoring core

iPulse watches one host's network: it probes, keeps statistics, tracks outages, detects
anomalies and lateral movement, matches threat indicators and stores what it learns. Its hard
parts are small deterministic machines that are updated incrementally and must agree with a
simple reading of the whole history. Each module below models one of them, as the code runs
it, and proves that agreement for every input and every run.

| module | file | component |
|---|---|---|
| AddressRanges | address_ranges.dfy | threat indicators as 16-byte ranges, upsert and match |
| Icmp | icmp.dfy | checksum, echo building and parsing, quoted datagrams, probe numbers |
| Baselines | baselines.dfy | Welford accumulation and pooled aggregates over reals |
| BaselineEngine | baseline_engine.dfy | the engine, its dirty set and the stored table |
| WriteBack | write_back.dfy | flushes in three parts, interleaved with samples, deletes and restarts |
| Connectivity | tracker.dfy | the outage tracker's hysteresis |
| Outages | outages.dfy | the outage table, the connectivity monitor, availability |
| Memos | memos.dfy | report memos and their pruning |
| Lateral | lateral.dfy | the lateral-movement detector |
| RateLimiter | rate_limiter.dfy | the API rate limiter with its shared slices |
| Correlation | correlation_window.dfy | the correlation window and its event queries |
| Destinations | destinations.dfy | the destination analyzer: memos, fanout, pruning |
| Retention | retention.dfy | roll-up into hourly aggregates and the deletion rules |
| AnomalyGate | gate.dfy | persistence, hysteresis and cooldown per key |
| Sustained | sustained.dfy | sustained-condition rule per dimension |
| Logger | logger.dfy | the event queue, flush and close as a channel protocol |
| Wrappers | wrappers.dfy | Option, filtering in order, and what the other modules share about them |
| Scheduler | scheduler.dfy | task goroutines and manual requests as a channel protocol |

Conventions. Times are integers in microseconds and a zero time is an Option; float64
statistics are reals; the wire code uses bytes, uint16 words and an explicit 2^32 wrap-around.
SQL tables are maps (or sequences) with the statement's own semantics. A Go map iteration
picks keys in an arbitrary order, so whatever a method returns after one holds for every
order. Objects that the code updates in place are classes; records kept by pointer inside one
of its maps are values in the map, replaced on update. The clock, parsers of addresses,
the local calendar and store answers are parameters.

Where the code and its comments differ, the model follows the code:

- `downsampleMeasurements` is not idempotent by itself (internal/database/retention.go:115);
  `Retention.RollUpAlone` and `Retention.BalanceIsKeptIff` say exactly when a run conserves samples.
- `Prune` with a non-positive measurement retention still rolls up, and a failing statement between
  roll-up and delete leaves rows that the next run counts again (internal/database/retention.go:45-85).
- `flush` forgets the changed keys before they are saved (internal/agent/monitor_anomaly.go:174-193);
  `WriteBack.SettledIsStoredIff` says exactly what is stored after any run, `WriteBack.FailedFlushIsCoherentIff`
  when a failed save does no harm.
- A HEALTHY diagnosis can leave the tracker open with no row (internal/agent/monitor_connectivity.go:160-170);
  `Outages.OpenHasRowIff` gives the exact condition over whole runs.
- While an outage is open the diagnosis is repeated not only at every fourth failure but at every success
  too (internal/agent/monitor_connectivity.go:138-144); `Outages.OpenCheckDiagnosesIff`.
- The gate's recovery duration runs from the latest streak of breaches, not from the start of the
  episode (internal/anomaly/gate.go:81-84, :123); `AnomalyGate.RecoveryDuration`.
- `Gate.Prune` goes by the start of a streak and the last fire, not by the last observation
  (internal/anomaly/gate.go:163-180); `AnomalyGate.ForgettingIsInvisibleIff`.
- The detector's index undercounts ports when an older attempt arrives late
  (internal/lateral/detector.go:169-228); `Lateral.PortCountIsTrueIff`.
- Nothing but the single call of `Start` keeps a task from overlapping with itself
  (internal/agent/scheduler.go:118-130, :196-211); `Scheduler.AlreadyRunningIff`.
- A sustained peak starts at zero (internal/anomaly/rules.go:261); `Sustained.PeakIsMaximumIff`.
- A probe's answer is recognised by its number, but a quote too short to hold one passes for any
  (internal/routing/traceroute.go:232-256, :277-297); `Icmp.LateErrorAnswersIff`.
- The counts of a failed indicator import include what was rolled back
  (internal/database/store_threat.go:43-62); `AddressRanges.IndicatorTable.UpsertIndicators`.

## Model

| member | source | states |
|---|---|---|
| AddressRanges.RangeIffAgree | internal/database/store_threat.go:87-119 | two byte-wise comparisons with the bounds hold exactly when the key shares the first n bits of the prefix, for any length and n |
| AddressRanges.AgreeAllIsEqual | internal/database/store_threat.go:71-73 | a full-length prefix matches only its own address |
| AddressRanges.Addr16IsTheMappedForm | internal/database/store_threat.go:82-85 | every address has one 16-byte key, for IPv4 ten zero bytes, two of 0xff and its four; the same as that of its mapped IPv6 form, zones ignored |
| AddressRanges.MaskedMapped | internal/database/store_threat.go:87-92 | masking before or after the embedding into 128 bits is the same |
| AddressRanges.SetBitAt | internal/database/store_threat.go:95-99 | one iteration of the bit loop sets that bit and no other |
| AddressRanges.PrefixRange | internal/database/store_threat.go:87-101 | the in-place loop yields the first and last key of the prefix, 96 bits added for IPv4 |
| AddressRanges.IndicatorTable.IndicatorRange | internal/database/store_threat.go:67-80 | an address gets a point, a CIDR its block, anything unparsable no range |
| AddressRanges.NestedOrDisjoint | internal/database/store_threat.go:67-101 | of two ranges the one with the longer prefix lies inside the other or apart from it, whatever their families |
| AddressRanges.StoredRangesNest | internal/database/store_threat.go:67-119 | the ranges of any two stored rows are nested, one way or the other, or apart |
| AddressRanges.HitIffDenotes | internal/database/store_threat.go:112-125 | the stored-bytes predicate decides what the indicator text denotes |
| AddressRanges.IndicatorTable.MatchIP | internal/database/store_threat.go:112-125 | distinct covering indicators, 25 or all there are; "high" before "medium" before any other confidence, and nothing left out that is better than one returned |
| AddressRanges.TopIsCompleteIff | internal/database/store_threat.go:115-119 | nothing is left out exactly when no more than 25 match |
| AddressRanges.ManyFeedsShow | internal/database/store_threat.go:115-119 | an address that 26 feeds or more publish: whatever is returned misses one |
| AddressRanges.UpsertStep | internal/database/store_threat.go:27-57 | one indicator of a batch extends the upsert relation, repeated keys included |
| AddressRanges.IndicatorTable.UpsertIndicators | internal/database/store_threat.go:15-62 | counts add up, a refresh keeps range, first import and an omitted note, the last entry of a key wins, its confidence one of three names with "medium" for anything else; a failing statement rolls back the rows and leaves the counts |
| Icmp.ComputeChecksum | internal/routing/icmp.go:70-82 | the wrapping uint32 loops compute the ones' complement checksum; up to 131074 bytes it is that of the true sum |
| Icmp.SumWords | internal/routing/icmp.go:71-77 | the adding loop, each addition modulo 2^32, equals the word sum modulo 2^32 for even and odd lengths |
| Icmp.FoldCarries | internal/routing/icmp.go:78-81 | the folding loop ends with the folded sum's complement |
| Icmp.WordSumBound | internal/routing/icmp.go:70-77 | the sum is at most 0xffff for each started word |
| Icmp.NeverWrapsIff | internal/routing/icmp.go:70-77 | no buffer of n bytes wraps the sum exactly when n is at most 131074 |
| Icmp.FoldCongruent | internal/routing/icmp.go:78-80 | folding keeps the value modulo 65535 and gives zero only for zero |
| Icmp.ComplementCancels | internal/routing/icmp.go:78-81 | adding the complement makes the sum fold to all ones |
| Icmp.PutAddsWord | internal/routing/icmp.go:33-37 | writing a word into a zero field at an even offset adds it to the sum |
| Icmp.ChecksumOfStamped | internal/routing/icmp.go:33-37 | a buffer that carries its own checksum at an even offset has checksum zero |
| Icmp.BuildEcho | internal/routing/icmp.go:23-39 | the buffer is the echo request, it carries the number, and for IPv4 its checksum verifies |
| Icmp.EchoBytes | internal/routing/icmp.go:23-39 | byte by byte: type 8 or 128, code 0, no checksum for IPv6, identifier, number, and the text "iPulse-path-probe" |
| Icmp.KindIff | internal/routing/icmp.go:50-67 | behind any header: echo reply exactly for type 0 or 129, time exceeded for 11 or 3, unreachable for 3 or 1; anything else or shorter than eight bytes is no reply, with no number |
| Icmp.MalformedHeaders | internal/routing/icmp.go:44-49 | a header that claims less than 20 bytes, or has nothing behind it, is not skipped; in a quote it counts as 20 bytes |
| Icmp.ReplyRoundTrip | internal/routing/icmp.go:43-67 | parsing any reply to a request that carries a number, as a built echo does, recovers it, both families, behind any IHL on a raw socket |
| Icmp.EmbeddedRoundTrip | internal/routing/traceroute.go:277-297 | the number is recovered from any quoted header and first 8 bytes of the request |
| Icmp.ErrorRoundTrip | internal/routing/icmp.go:43-67 | time-exceeded and unreachable errors that quote at least eight bytes of such a request yield its number |
| Icmp.SeqCounter.NextSeq | internal/routing/traceroute.go:334-341 | each call advances the counter and gives a number from 0x4000 to 0x7fff |
| Icmp.NumberAtClosed | internal/routing/traceroute.go:334-341 | the k-th number after a counter value in closed form |
| Icmp.NumbersRepeatExactly | internal/routing/traceroute.go:334-341 | two numbers are equal exactly when their distance is a multiple of 16384 |
| Icmp.MatchReply | internal/routing/traceroute.go:232-256 | the reading loop returns the first reply that answers this probe, or none if there is none |
| Icmp.LateReplyIsSkipped | internal/routing/traceroute.go:232-256 | an echo reply to another probe within 16383 calls is never taken for this one's |
| Icmp.LateErrorIsSkipped | internal/routing/traceroute.go:232-256 | nor is an error that quotes at least eight bytes of another such probe |
| Icmp.LateErrorAnswersIff | internal/routing/traceroute.go:232-297 | an error about a probe with another number is taken for this one's exactly when its quote ends before the IP header and eight bytes |
| Icmp.OtherNumber | internal/routing/traceroute.go:334-341 | probes less than 16384 calls apart have different numbers |
| Icmp.EmbeddedOfFirst | internal/routing/traceroute.go:277-297 | a quote of any length yields the number, or -1 exactly when it ends too early |
| Icmp.ShortQuoteAnswers | internal/routing/traceroute.go:249-251 | eight bytes of time exceeded answer every probe |
| Baselines.SameBucketIff | internal/baseline/engine.go:142-153 | two times share a bucket exactly when both or neither are on a weekend and their hours are in one group |
| Baselines.BucketSays | internal/baseline/engine.go:142-153 | the label is "all", or the day class and, in two decimal digits, the first hour of the group that the time falls in |
| Baselines.AddKeepsMoments | internal/baseline/engine.go:192-205 | one Welford step keeps count, mean and M2 exact |
| Baselines.MomentsAreDeviations | internal/baseline/engine.go:192-205 | the exact M2 is the sum of squared deviations from the exact mean |
| Baselines.AddDescribes | internal/baseline/engine.go:192-222 | one sample keeps every statistic and the window that of the whole history |
| Baselines.AnyHistoryIsDescribed | internal/baseline/engine.go:161-222 | after any samples the mean, M2, extremes and readiness are theirs and the window is the last WindowSize of them |
| Baselines.TotalOrderFree | internal/baseline/engine.go:262-290 | sums over buckets do not depend on iteration order |
| Baselines.PoolingIsOrderFree | internal/baseline/engine.go:253-301 | two pooled aggregates over permuted buckets are equal |
| Baselines.TotalVariance | internal/baseline/engine.go:262-290 | all samples' spread is the spread within the buckets plus that between their means |
| Baselines.BetweenIsNonnegative | internal/baseline/engine.go:262-290 | the part that pooling drops is never negative |
| Baselines.PoolingIsExactUpToBetween | internal/baseline/engine.go:253-301 | the aggregate's mean is the mean of all samples, its M2 short by exactly the spread between means |
| BaselineEngine.Engine.constructor | internal/baseline/engine.go:111-132 | a new engine is empty and described by its history; 30 observations, hour buckets, a window of 256, alpha 0.1 and 30 days stand in for what the configuration leaves out |
| BaselineEngine.Engine.Observe | internal/baseline/engine.go:161-189 | the result is the baseline before the sample, its window left out and every other field as held; of a known key it has the count, mean, squared deviations and extremes of the old history, of a new key no samples; the held one then has those of the longer history, the new EWMA, time and first time; only this key changes and becomes dirty; readiness is announced once, by a copy of the held baseline |
| BaselineEngine.SampleKeepsWindows | internal/baseline/engine.go:211-214 | every window stays the last WindowSize samples of its history |
| BaselineEngine.Engine.GetAggregate | internal/baseline/engine.go:253-301 | the loop pools exactly the metric's buckets, in some order; nothing exactly when there is none |
| BaselineEngine.AggregateIsOfAllSamples | internal/baseline/engine.go:253-301 | the aggregate's mean is that of all samples of its buckets, its M2 at most their sum of squared deviations |
| BaselineEngine.AggregateIsDetermined | internal/baseline/engine.go:253-301 | whatever order the map yields, the aggregate is the same |
| BaselineEngine.Engine.TakeDirty | internal/baseline/engine.go:352-382 | each changed baseline once, and nothing is dirty afterwards |
| BaselineEngine.Engine.Load | internal/baseline/engine.go:387-413 | any rows become baselines with readiness re-derived, the last of a key winning, other keys untouched; rows that a history explains stay explained, full windows exact |
| BaselineEngine.Engine.Prune | internal/baseline/engine.go:416-429 | exactly the baselines older than the age limit go, dirty or not |
| BaselineEngine.EnumerationsArePermutations | internal/baseline/engine.go:262-263 | two visits of the same keys are permutations of each other |
| BaselineEngine.SampleDescribes | internal/baseline/engine.go:161-189 | every baseline stays described by its own history when one sample comes |
| BaselineEngine.SampleIsAbout | internal/baseline/engine.go:161-222 | before and after a sample, count, mean, squared deviations from it and extremes are those of the history |
| BaselineEngine.RestoredDescribes | internal/baseline/engine.go:387-413 | a restored row is described by the history it was stored for |
| BaselineEngine.BaselineTable.Save | internal/database/store_baselines.go:32-62 | the upsert replaces all but first_seen |
| BaselineEngine.BaselineTable.LoadAll | internal/database/store_baselines.go:64-97 | every stored row once |
| BaselineEngine.BaselineTable.Prune | internal/database/store_baselines.go:100-108 | exactly the rows older than the cutoff go |
| WriteBack.AnomalyMonitor.Flush | internal/agent/monitor_anomaly.go:174-193 | the three parts run one after the other, a failed save stopping it half way |
| WriteBack.AnomalyMonitor.Take | internal/agent/monitor_anomaly.go:175 | taking the changed rows is its abstract step |
| WriteBack.AnomalyMonitor.Save | internal/agent/monitor_anomaly.go:176-190 | saving them, or failing to, is its abstract step; nothing changed is nothing to fail |
| WriteBack.AnomalyMonitor.Sweep | internal/agent/monitor_anomaly.go:191 | pruning memory is its abstract step |
| WriteBack.AnomalyMonitor.PruneTable | internal/agent/monitors.go:63-72 | the retention delete is its abstract step |
| WriteBack.AnomalyMonitor.Restore | internal/agent/monitor_anomaly.go:146-172 | a restart is its abstract step, for any stored rows |
| WriteBack.StepKeepsAccounted | internal/agent/monitor_anomaly.go:146-193 | every step keeps each settled key stored, in flight or lost to a failed save |
| WriteBack.RunIsAccounted | internal/agent/monitor_anomaly.go:146-193 | so does every interleaving of samples, flush parts, retention deletes and restarts, with failing saves |
| WriteBack.SettledIsStored | internal/agent/monitor_anomaly.go:174-193 | a clean key within the age limit has a stored row equal to it but for first_seen, or its row in flight equals it, unless a failed save lost it and it had no sample or restart since |
| WriteBack.SettledIsStoredIff | internal/agent/monitor_anomaly.go:174-193 | with samples and sweeps in time order it is stored exactly when it is neither in flight nor lost |
| WriteBack.StepKeepsVersions | internal/baseline/engine.go:161-222 | what is changed, in flight or lost is ahead of its stored row |
| WriteBack.RestartRestores | internal/agent/monitor_anomaly.go:146-172 | after any run a restart brings back every settled baseline neither in flight nor lost, readiness derived anew |
| WriteBack.SavingSettlesTheRest | internal/agent/monitor_anomaly.go:174-193 | after a successful save all is stored but what was sampled since the take, is past the age limit, or lost before |
| WriteBack.FailedFlushIsCoherentIff | internal/agent/monitor_anomaly.go:174-193 | a flush whose save fails leaves everything stored exactly when nothing within the age limit had changed or was lost before |
| WriteBack.FailedSaveLosesASample | internal/agent/monitor_anomaly.go:175-189 | one sample and one failed save lose it |
| Connectivity.Tracker.RecordCheck | internal/connectivity/tracker.go:47-67 | the updates in place are the transition function |
| Connectivity.Tracker.ResumeOutage | internal/connectivity/tracker.go:90-95 | resuming reopens and keeps the success counter |
| Connectivity.OpenIffDown | internal/connectivity/tracker.go:36-67 | open exactly when some run of N failures is not followed by M successes |
| Connectivity.TransitionsAlternate | internal/connectivity/tracker.go:47-67 | openings and closings alternate, resumes included |
| Connectivity.TransitionsAreEarned | internal/connectivity/tracker.go:47-95 | N per opening plus M per closing never exceeds the number of checks |
| Connectivity.ResumeClosesAfter | internal/connectivity/tracker.go:90-95 | how many successes close a resumed outage, earlier successes counting |
| Outages.OutageStore.CurrentOutage | internal/database/store_outages.go:95-105 | the newest unresolved row, if any |
| Outages.OutageStore.OpenOutage | internal/database/store_outages.go:13-33 | an open outage is reused, with its start and one more diagnosis; otherwise a new row with the next id is inserted; no other row changes |
| Outages.OutageStore.CloseOutage | internal/database/store_outages.go:36-54 | the row is resolved at the end time with its length rounded to the nearest millisecond, or zero; an unknown id changes nothing |
| Outages.OutageStore.PruneResolved | internal/database/retention.go:87-99 | the survivors are unchanged and are all but the resolved rows before the cutoff; what is unresolved and what is current stay the same |
| Outages.ConnectivityMonitor.Restore | internal/agent/monitor_connectivity.go:82-96 | the monitor adopts the open row and resumes the tracker |
| Outages.ConnectivityMonitor.RunCheck | internal/agent/monitor_connectivity.go:98-146 | one check is the abstract step of tracker and table |
| Outages.ConnectivityMonitor.StartOutage | internal/agent/monitor_connectivity.go:149-206 | a diagnosis other than HEALTHY opens a row |
| Outages.ConnectivityMonitor.EndOutage | internal/agent/monitor_connectivity.go:270-296 | the named row is closed and forgotten |
| Outages.OpeningInserts | internal/agent/monitor_connectivity.go:149-206 | an opening appends one row and never reuses one |
| Outages.ClosingResolves | internal/agent/monitor_connectivity.go:270-296 | a closing resolves the open row and keeps the invariant |
| Outages.StepKeeps | internal/agent/monitor_connectivity.go:82-206 | every check, restart and retention run keeps the invariant |
| Outages.RunIsSafe | internal/agent/monitor_connectivity.go:82-296 | over every run at most one row is unresolved, the monitor names it, it implies an open tracker, rows are disjoint |
| Outages.HealthyDiagnosisLeavesNoRow | internal/agent/monitor_connectivity.go:160-170 | an open tracker with no row is reachable |
| Outages.OpeningLeavesARowIff | internal/agent/monitor_connectivity.go:149-206 | an opening check leaves a row for an open tracker exactly when the diagnosis is not HEALTHY or one success closes |
| Outages.OpenHasRowIff | internal/agent/monitor_connectivity.go:82-206 | over a whole run an open tracker always has its row exactly when every opening check is such |
| Outages.OpenCheckDiagnosesIff | internal/agent/monitor_connectivity.go:130-144 | while an outage stays open a check diagnoses again exactly at every fourth failure in a row and at every success |
| Outages.OutageStore.AvailabilitySince | internal/database/store_outages.go:156-210 | for any rows the clipped lengths are summed, counted and the longest found; percent times window is 100 times the time up, 0 and 100 at the edges; MTBF is the time up over the outages, rounded toward zero; for disjoint rows, as RunIsSafe keeps them, downtime is the measure of their union |
| Outages.DisjointMoments | internal/database/store_outages.go:171-196 | the clipped lengths of disjoint rows add up to the measure of their union |
| Outages.UnionGrows | internal/database/store_outages.go:171-196 | disjoint rows add up to the measure of their union |
| Outages.AllDowntimeIsSelected | internal/database/store_outages.go:163-170 | the rows the query leaves out have no downtime in the window |
| Outages.ReportIsSound | internal/database/store_outages.go:197-210 | what such a report says of disjoint rows: downtime fits the window, the percentage is one, and MTBF is nonnegative exactly when no row is selected or the window starts less than that many ticks ahead |
| Memos.DroppingIsInvisible | internal/destinations/analyzer.go:352-374 | dropping old memos changes no answer when intervals do not exceed the horizon by more than a tick |
| Memos.InvisibleIff | internal/destinations/analyzer.go:352-374 | and exactly then |
| Memos.LongerIntervalIsVisible | internal/destinations/analyzer.go:352-374 | a concrete run on which a longer interval shows |
| Lateral.Detector.Observe | internal/lateral/detector.go:156-199 | after every batch the state refines the whole accepted history, to which the batch adds the attempts of each process that count; a process goes by its latest pid, executable and user; findings are those due, and with histories in time order they are what the histories say, condition by condition and figure by figure |
| Lateral.Detector.FoldIn | internal/lateral/detector.go:158-193 | accepted observations, and only those, join the histories |
| Lateral.Detector.Trim | internal/lateral/detector.go:203-228 | every process is trimmed to the window or dropped |
| Lateral.CompactAttempts | internal/lateral/detector.go:206-213 | the compacting loop keeps exactly the attempts in the window, in order |
| Lateral.TrimProcess | internal/lateral/detector.go:205-227 | attempts and index are the history filtered to the window |
| Lateral.TrimHosts | internal/lateral/detector.go:214-223 | port times before the cutoff and empty hosts go, nothing else |
| Lateral.FoldedIsPending | internal/lateral/detector.go:169-193 | one accepted attempt keeps the refinement until the next trim |
| Lateral.OrderedIsUnshadowed | internal/lateral/detector.go:169-228 | in time order no attempt is shadowed |
| Lateral.PortCountIsTrueIff | internal/lateral/detector.go:299-303 | the per-host port count is the true distinct count, for all hosts, exactly when nothing in the window is shadowed |
| Lateral.LateArrivalHidesAPort | internal/lateral/detector.go:186-193 | an older attempt that arrives late hides a port |
| Lateral.Summarise | internal/lateral/detector.go:234-268 | the loop's counts are distinct hosts, ports, admin hosts and failures |
| Lateral.Detector.Evaluate | internal/lateral/detector.go:231-344 | findings are exactly the thresholds crossed in what is tracked and due, whatever the map order |
| Lateral.WantedIsMetByHistory | internal/lateral/detector.go:231-344 | in time order what is met depends on the window of the history alone: distinct hosts for a host sweep, hosts on admin ports with a failure or twice as many for an admin sweep, distinct ports on one host for a scan, failed attempts for repeated failures |
| Lateral.EmittedReportsHistory | internal/lateral/detector.go:231-344 | one finding for each condition that the history meets and whose memo is due, with the attempts, failures, hosts and ports of the window |
| Lateral.ExtendedByName | internal/lateral/detector.go:160-193 | a batch adds to a process the attempts of its observations with a valid host and port, unless it is allowed; without a name it is "(unattributed)" |
| Lateral.Detector.ShouldReport | internal/lateral/detector.go:438-446 | one report per key and cooldown |
| Lateral.ObserveIsOneCall | internal/lateral/detector.go:195-199 | what one batch reports and remembers is one step on the memos alone |
| Lateral.PruningIsInvisible | internal/lateral/detector.go:438-455 | the same reports with and without pruning the memos |
| Lateral.ReportedIff | internal/lateral/detector.go:438-455 | over every run a key is reported exactly when its condition is met and its last report is a cooldown ago or more, whatever was pruned |
| RateLimiter.Compact | internal/api/api.go:203-208 | the in-place loop leaves the times after the cutoff at the front, and the buffer alone when it keeps them all |
| RateLimiter.Append | internal/api/api.go:212-213 | append in place or into a larger copy |
| RateLimiter.Limiter.constructor | internal/api/api.go:189-194 | a limit that is not positive becomes 10 |
| RateLimiter.Limiter.Allow | internal/api/api.go:197-224 | accepts exactly when fewer than limit requests of the key were accepted in the window; a denial changes no stored list |
| RateLimiter.Limiter.Keep | internal/api/api.go:203-208 | what is kept is what the key's list has after the cutoff; a list that loses nothing is intact |
| RateLimiter.Limiter.Accept | internal/api/api.go:212-223 | an accept joins the key's history and keeps the limiter valid; a map of more than 1024 keys then holds only what was accepted within the window |
| RateLimiter.Limiter.CleanUp | internal/api/api.go:216-222 | exactly the stale keys go, and the limiter stays valid for the complete history |
| RateLimiter.AfterIsTail | internal/api/api.go:203-208 | in time order what is in the window is a tail |
| RateLimiter.SpacedIff | internal/api/api.go:181-224 | accepts limit apart span the window exactly when no window-long interval holds more than limit |
| RateLimiter.NoWindowIsOverfull | internal/api/api.go:181-224 | a valid limiter has no overfull interval for any key |
| RateLimiter.WaitIsLeast | internal/api/api.go:209-211 | the returned wait is the least one after which a retry passes |
| RateLimiter.SoundKept | internal/api/api.go:203-211 | the stored list decides as the complete history would, and has at most limit entries |
| RateLimiter.AcceptKeeps | internal/api/api.go:209-213 | an accept with fewer than limit in the window keeps the spacing |
| RateLimiter.SoundDropped | internal/api/api.go:216-222 | what the cleanup drops had nothing left that could count |
| Correlation.Window.constructor | internal/correlation/window.go:56-61 | a duration that is not positive becomes three minutes |
| Correlation.Window.AddSignal | internal/correlation/window.go:64-72 | an unstamped signal gets the clock, a stamped one keeps its time; then what is older than the window at that time goes from the front, and all but the newest 4096 |
| Correlation.Window.TakeSnapshot | internal/correlation/window.go:88-96 | returns the window after the same trim at now |
| Correlation.Window.Trim | internal/correlation/window.go:74-86 | drops the leading old signals, then all but the newest max |
| Correlation.OrderedWindowIsExact | internal/correlation/window.go:64-96 | for calls in time order the window is the last max of the history filtered to the duration |
| Correlation.NothingRecentIsDropped | internal/correlation/window.go:64-96 | for any order the window is a tail of the history and misses nothing within duration of the highest trim time, but for max |
| Correlation.TailsCommute | internal/correlation/window.go:74-86 | bounding by count before or after filtering by time is the same |
| Correlation.NewView | internal/correlation/window.go:111-129 | the index lists exactly each code's event signals, in order |
| Correlation.WithCodeHas | internal/correlation/window.go:123-126 | an event is listed under its code and no other |
| Correlation.SortByTime | internal/correlation/window.go:159 | some order by time of the same signals |
| Correlation.EventsWithCodes | internal/correlation/window.go:154-161 | exactly the signals of the codes, oldest first |
| Correlation.EventIDs | internal/correlation/window.go:214-225 | each nonzero id of a matching event exactly once, earliest first, for any unstable sort and repeated codes |
| Destinations.Analyzer.Observe | internal/destinations/analyzer.go:151-221 | the analyzer stays what all calls so far make of it, and answers each as a run of the abstract calls, store errors included |
| Destinations.Analyzer.Take | internal/destinations/analyzer.go:172-215 | one answered observation: its port is counted once more, its contact noted, then the questions asked |
| Destinations.Analyzer.Consider | internal/destinations/analyzer.go:180-215 | each memo is asked only when its reason holds, in order |
| Destinations.Analyzer.ShouldReport | internal/destinations/analyzer.go:352-361 | one report per key and interval |
| Destinations.Analyzer.CheckFanout | internal/destinations/analyzer.go:284-319 | trims and reports every process, whatever the map order |
| Destinations.Analyzer.Prune | internal/destinations/analyzer.go:365-386 | drops old memos, idle trackers and an oversized profile, no more |
| Destinations.QuestionsAgree | internal/destinations/analyzer.go:180-215 | pruned and complete memos answer a batch of questions alike |
| Destinations.ChecksAgree | internal/destinations/analyzer.go:284-319 | pruned and complete trackers fan out alike |
| Destinations.PruningIsInvisible | internal/destinations/analyzer.go:365-386 | every call of every run reports the same findings and fanout as an analyzer that forgets nothing |
| Destinations.PruningNeverShowsIff | internal/destinations/analyzer.go:365-386 | that holds exactly when NewWindow does not exceed 24 hours (and one tick) |
| Destinations.LongNewWindowShows | internal/destinations/analyzer.go:181-186 | a concrete run on which a longer NewWindow shows |
| Destinations.FanoutIff | internal/destinations/analyzer.go:268-319 | a process is reported exactly when its whole history has enough distinct destinations in the window and no report within it |
| Destinations.ProfileIsOfTheLog | internal/destinations/analyzer.go:223-231 | over every run the profile holds for each port how often it was observed since the profile was last reset |
| Destinations.ThresholdIsRarity | internal/destinations/analyzer.go:322-343 | the rarity threshold is that of the last call more than 15 minutes after the one before that set it |
| Destinations.ReportedIff | internal/destinations/analyzer.go:151-216 | over every run each of the four kinds is reported exactly when learning is over, its reason holds (the store calls it new; new and high volume; seldom contacted; a positive port, not expected, observed fewer than five times) and no report by the same key is younger than its interval, pruned memos or not |
| Destinations.FindingsAreOfTheItems | internal/destinations/analyzer.go:158-220 | a call reports what its observations give, up to the first that the store does not answer |
| Destinations.RecentIsDistinct | internal/destinations/analyzer.go:292-299 | the trimmed contacts are the distinct destinations of the history in the window |
| Destinations.HistoryIsKnown | internal/destinations/analyzer.go:268-319 | trackers know the latest contact of every address that can still count |
| Retention.TotalSplits | internal/database/retention.go:126-141 | any cutoff, also inside an hour, splits each key's total into two that combine to it |
| Retention.HourIff | internal/database/retention.go:119-131 | the bucket of a time is the hour it lies in: [bucket, bucket + 1h) from 1970 on |
| Retention.TotalIsOver | internal/database/retention.go:126-132 | a key's aggregate has the count, sum, sum of squares, least and greatest of the values of the ok rows with its metric and target in its hour |
| Retention.CombinedIsOver | internal/database/retention.go:132-137 | aggregates of two lists of values merge to the aggregate of both |
| Retention.CombineAssociative | internal/database/retention.go:133-138 | merging aggregates is associative |
| Retention.EachTableIsCutOnce | internal/database/retention.go:57-85 | the rules, in order, cut every table once at its own cutoff |
| Retention.CompleteRunCutsEveryTable | internal/database/retention.go:57-99 | a complete run leaves each of the 14 tables without its rows before the cutoff of its own setting, unresolved outages excepted, or as it was where that is not positive |
| Retention.PrunedTables | internal/database/retention.go:45-85 | what a run does to the two measurement tables, complete or failing at any statement, the roll-up included |
| Retention.BalanceIsKeptIff | internal/database/retention.go:45-85 | a run keeps a key's samples exactly when it both rolls up and deletes, or neither, or the key has no ok row before the cutoff |
| Retention.RollUpAlone | internal/database/retention.go:115-144 | rolling up twice without deleting changes a key exactly when it has rows |
| Retention.SamplesAreConserved | internal/database/retention.go:38-144 | over any run of inserts and such runs, the hourly row is the aggregate of exactly those of the inserted values that the raw rows no longer hold, and both together that of all |
| Retention.Database.GroupBy | internal/database/retention.go:126-132 | one aggregate for each key of the ok rows before the cutoff, with the count, sums, least and greatest of its values |
| Retention.Database.Upsert | internal/database/retention.go:133-138 | conflicting groups are merged, in any order: a row over some values and a group over others become the row over all |
| Retention.Database.Downsample | internal/database/retention.go:118-144 | every hourly row takes up the values of the old rows of its key; the count is the number of groups |
| Retention.Database.Delete | internal/database/retention.go:77-84 | exactly the rows of the table before the cutoff go, no other table changes, and their number is returned |
| Retention.Database.InsertMeasurements | internal/database/store_measurements.go:13-43 | a batch joins the raw rows and the history |
| Retention.Database.Prune | internal/database/retention.go:38-111 | the tables stay what the history makes of them, up to a failing statement; the deleted rows are accounted for in all and by table |
| Retention.OneMoreIsAccounted | internal/database/retention.go:82-84 | each delete adds to the total and to its own table's count |
| AnomalyGate.Gate.constructor | internal/anomaly/gate.go:42-55 | persistences below 1 become 1 |
| AnomalyGate.Gate.Breach | internal/anomaly/gate.go:74-104 | the updates in place answer as the key's own history demands |
| AnomalyGate.Gate.Clear | internal/anomaly/gate.go:107-127 | likewise for a clear |
| AnomalyGate.Gate.Observe | internal/anomaly/gate.go:130-135 | a breach or a clear |
| AnomalyGate.Gate.Firing | internal/anomaly/gate.go:138-143 | firing is what the key's history says |
| AnomalyGate.Gate.ResetKey | internal/anomaly/gate.go:146-150 | forgets one key |
| AnomalyGate.Gate.Prune | internal/anomaly/gate.go:165-180 | forgets exactly the stale keys, never a firing one |
| AnomalyGate.MovesRunAlone | internal/anomaly/gate.go:73-180 | every key runs as if it were alone |
| AnomalyGate.CountersAreStreaks | internal/anomaly/gate.go:79-113 | the counters are the lengths of the trailing streaks |
| AnomalyGate.FireIsEarned | internal/anomaly/gate.go:74-104 | a fire ends at least persistence consecutive breaches |
| AnomalyGate.FiresIff | internal/anomaly/gate.go:74-104 | a fire comes exactly on such a run with no earlier fire of the episode within the cooldown |
| AnomalyGate.FiresAreApart | internal/anomaly/gate.go:89-103 | two fires of one episode are at least the cooldown apart; without cooldown there is one |
| AnomalyGate.RecoveryIsEarned | internal/anomaly/gate.go:107-127 | a recovery comes exactly at the recoveryPersistence-th consecutive clear of a firing key |
| AnomalyGate.FiringIffOpen | internal/anomaly/gate.go:74-127 | firing exactly when some fire has not been followed by a recovery |
| AnomalyGate.RecoveriesAlternate | internal/anomaly/gate.go:107-127 | between two recoveries there is a fire |
| AnomalyGate.FiringIffActive | internal/anomaly/gate.go:74-127 | firing exactly when some long enough run of breaches is not followed by a long enough run of clears |
| AnomalyGate.RecoveryDuration | internal/anomaly/gate.go:81-84 | the duration runs from the latest streak |
| AnomalyGate.BreachIsDescribed | internal/anomaly/gate.go:74-104 | a breach's decision gives the length of its streak and the time since its start, is suppressed exactly when the streak is long enough and nothing fires, and says whether the key fires |
| AnomalyGate.ClearIsDescribed | internal/anomaly/gate.go:107-127 | a clear's decision counts the clears since the last breach, recovery or reset |
| AnomalyGate.ForgettingIsInvisibleIff | internal/anomaly/gate.go:165-180 | forgetting a key that is not firing shows exactly when it is in a streak of breaches |
| AnomalyGate.PruneForgetsAStreak | internal/anomaly/gate.go:165-180 | a key observed after the cutoff is forgotten in mid-streak and then does not fire |
| Sustained.Rule.Observe | internal/anomaly/rules.go:223-279 | the updates in place answer as the dimension's own history demands |
| Sustained.Rule.Active | internal/anomaly/rules.go:289-297 | active exactly while the last sample was at or above the floor, for as long as the run |
| Sustained.StateDescribes | internal/anomaly/rules.go:223-279 | count, total, peak and times are those of the unbroken run |
| Sustained.OngoingIsAboutTheRun | internal/anomaly/rules.go:265-278 | an ongoing report covers the whole run: floor <= average <= peak, average times samples their sum, at least MinDuration |
| Sustained.EndIsAboutTheRun | internal/anomaly/rules.go:236-253 | an end reports the run that the low sample broke |
| Sustained.PeakIsMaximumIff | internal/anomaly/rules.go:261-263 | the peak is the run's maximum exactly when the run is not all negative |
| Sustained.NegativeRunHasNoPeak | internal/anomaly/rules.go:261-263 | a negative run is reported with a peak of zero |
| Sustained.NothingWithoutMinDuration | internal/anomaly/rules.go:224-226 | without a minimum duration nothing is ever reported |
| Sustained.ReportsIff | internal/anomaly/rules.go:265-278 | a report comes exactly when the run spans MinDuration and has no report closer than Repeat |
| Sustained.RepeatsAreApart | internal/anomaly/rules.go:269-273 | repeats of one run are Repeat apart, or there is only one |
| Sustained.EndsIff | internal/anomaly/rules.go:236-253 | an end comes exactly at the sample that breaks a reported run |
| Sustained.EndsAreOfDifferentRuns | internal/anomaly/rules.go:236-253 | no report is ended twice |
| Logger.StepKeeps | internal/logging/logger.go:165-238 | every step of every party keeps the invariant |
| Logger.EventsAreConserved | internal/logging/logger.go:165-238 | emitted events are dropped, about to be counted as dropped, processed, in hand or queued |
| Logger.EmitNeverBlocks | internal/logging/logger.go:175-179 | in every reachable state an event is queued, or refused exactly because the queue is full |
| Logger.AcceptedAreInOrder | internal/logging/logger.go:209-238 | processed, then in hand, then queued: the accepted events in order |
| Logger.ClosedFlushMeansProcessed | internal/logging/logger.go:213-220 | a closed flush channel means every event accepted before it was processed |
| Logger.FlushReturnedMeansProcessed | internal/logging/logger.go:322-333 | a Flush that did not time out returns after every event accepted before the call was processed |
| Logger.MarksAreClosedOnce | internal/logging/logger.go:217-220 | no flush channel is closed twice |
| Logger.ExitedProcessedAll | internal/logging/logger.go:222-235 | what a returned worker processed is exactly what had been accepted by then |
| Logger.StopDrains | internal/logging/logger.go:222-235 | every event accepted before stop is processed before the worker returns |
| Logger.DrainingGoesOn | internal/logging/logger.go:222-235 | once the worker has seen stop it only drains, and returns exactly when it finds the queue empty |
| Logger.StopIsClosedOnce | internal/logging/logger.go:371-376 | stop is closed once |
| Logger.NothingAfterSinksClose | internal/logging/logger.go:375-381 | nothing is processed once the sinks are closed |
| Logger.LateFlushGivesUp | internal/logging/logger.go:322-333 | a flush called after the worker returned ends only by its timeout |
| Scheduler.WithTaskNames | internal/agent/scheduler.go:104-110 | adding keeps task names unique |
| Scheduler.WithTaskReplaces | internal/agent/scheduler.go:104-110 | a task takes the place of the one of its name or comes last, and the others stay |
| Scheduler.StepKeepsSerial | internal/agent/scheduler.go:118-270 | every step keeps the invariant of executions |
| Scheduler.OneExecutionPerTask | internal/agent/scheduler.go:144-194 | started once, a task has at most one execution in flight |
| Scheduler.NeverAlreadyRunning | internal/agent/scheduler.go:200-211 | started once, execute never finds its task running |
| Scheduler.AlreadyRunningIff | internal/agent/scheduler.go:118-130 | that branch is reachable exactly when Start was called more than once |
| Scheduler.StepKeepsDelivered | internal/agent/scheduler.go:158-185 | every step keeps each request in one place |
| Scheduler.ReplyNeverBlocks | internal/agent/scheduler.go:180-183 | the reply is the first and its send never blocks, even if the caller gave up |
| Scheduler.TakenRequestsAreAnswered | internal/agent/scheduler.go:307-329 | a request taken from its channel is replied to once or in the hand of one goroutine |
| Scheduler.ReplyTellsTheOutcome | internal/agent/scheduler.go:180-183 | what a manual run replies is how that run came out, an error when the task was already running |
| Scheduler.StatsCountCompletions | internal/agent/scheduler.go:234-244 | Failures <= Runs = completed executions |
| Scheduler.StatsCountSkips | internal/agent/scheduler.go:200-268 | Skips counts the executions that found the task running and the scheduled ones longer than the interval |
| Scheduler.OnlyTheScheduleMovesTheDeadline | internal/agent/scheduler.go:180-191 | a manual run leaves the timer's deadline as it was |
| Scheduler.ScheduledStartsAreApart | internal/agent/scheduler.go:184-191 | scheduled executions start at least Interval apart whatever manual runs come between |
| Scheduler.FirstStartIsDelayed | internal/agent/scheduler.go:168-174 | the first scheduled execution waits for the initial delay and jitter, and for an interval more unless the task runs on start |
| Scheduler.NextStartIsDelayed | internal/agent/scheduler.go:184-191 | the next one waits for the interval and jitter after the end of the last |
| Scheduler.ManualOnlyNeverFires | internal/agent/scheduler.go:156-166 | a task that is only run by hand has no scheduled execution |

## Left out

- Domain matching, indicator expiry and feed bookkeeping of store_threat.go: plain single statements.
- Address and prefix parsing and lower-casing are parameters of AddressRanges with the properties a parser must have.
- Icmp: sockets, the error queue and timers; the replies that arrive before the deadline are an input.
- Baselines: rounding of float64, and the percentiles, median and MAD, which rest on a package that is not part of this model.
- BaselineEngine.Engine.GetAggregate: EWMA, which depends on map order, FirstSeen, UpdatedAt and the percentiles are not in the aggregate.
- BaselineEngine.Engine.TakeDirty: the order of the rows, whose keys are distinct, so that saving them does not depend on it.
- WriteBack: a second flush beside the first, which the scheduler rules out, and a save that fails after it was committed.
- BaselineEngine: baseline records shared by pointer are values in the map, so aliasing of one record is not captured.
- Outages: evidence, interface and gateway columns, status and event emission, and database errors.
- Lateral: finding texts, confidence, the lists of hosts and ports (their sizes are modelled) and sequential flags; the allow list is a predicate; memo keys are tuples instead of joined strings.
- RateLimiter: the mutex (each call is one step), and a wall clock that steps back; Go compares monotonic readings.
- Correlation: the indexes by event name and metric, and the metric summaries, which read one list each.
- Destinations: the percentile behind the rarity threshold is an input of each call, and a fanout report is a map by process instead of a list sorted by name.
- Retention: the approximated p50 and p95, vacuuming, sizes and durations; a table other than the measurements is the times its rule compares.
- AnomalyGate.Gate.Prune: its effect on other readers of Keys and on Consecutive after a run of clears is not claimed to be invisible.
- Sustained: Reset of a dimension, which nothing in the program calls.
- Logger: sinks, severities, subscribers and rotation; liveness, since timeouts are arbitrary choices.
- Scheduler: the tasks' own work, contexts and timeouts, NextRun, LastRun and LastError, and liveness; a request left in the channel of a goroutine that returned is never answered.
- Log-file rotation, command line, dashboard, API handlers, text formatting, health scores, latency and DNS summaries, route comparison and the sample bus: no property harder than those above.
