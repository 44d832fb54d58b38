# Verified models of NexWatch's stateful cores

NexWatch is a monitoring hub with agents. This project models the parts of it that keep state across time,
failures, restarts and races, and proves what they keep: the alert engine, the metrics downsampler, the uptime
arithmetic, log pagination, the command broker, the agent's log and transport pipelines, and a few small
algorithms against simpler references (label escaping, UTF-8 truncation, the address limiter, check debouncing).

`dafny verify dfyconfig.toml` checks everything with Dafny 4.11 and no further options.

## How the models are built

* A component with state is a `World` value, a set of events and a `Step`. An event is one atomic section of the
  source: a section under a mutex, one channel operation, one database call, one socket write. Which saves,
  deletes, lookups, dials and writes fail, what time it is and which ids inserts get are parameters of the events,
  so a valid run is any interleaving with any failures.
* Beside it, a class has the source's fields and methods that update them in place. Each method is proved to take
  exactly the event's step, so the theorems about runs are theorems about the class.
* Components without shared state (interval merging, the line tailer, truncation, the limiter) are classes or
  methods with loops, proved directly against a definition that does not mention the algorithm.

| files | component |
|---|---|
| `AlertModel`, `AlertEngine`, `AlertProofs`, `AlertHistory` | the alert engine over trackers, stored records and notices |
| `AlertMemory`, `AlertSilence` | what records and trackers remember of the events, and when alerts are announced again |
| `DownsamplerModel`, `DownsamplerLoops`, `DownsamplerProofs` | raw, one-minute, five-minute and one-hour metrics rows |
| `DownsamplerMeans`, `DownsamplerPasses` | what an aggregate's fields are, and which rows a pass takes away |
| `DownsamplerWhole`, `DownsamplerMerges`, `DownsamplerRuns` | which samples an aggregate misses, which rows are merged twice, and runs in which it happens |
| `Uptime` | interval union, uptime percentages and daily bars |
| `LogPaging` | keyset pagination and its cursor |
| `Broker` | request and response correlation under races |
| `LogLimiter`, `LogPipeline` | the agent's log rate limit, bounded channel and batcher |
| `WsTransport` | the agent's send queue across reconnects, heartbeats and backoff |
| `FileTailer` | lines from chunks of bytes |
| `Utf8` | truncation at character boundaries |
| `Prometheus` | label escaping and sample lines |
| `IpLimiter` | the pruned and swept request limiter |
| `Checks` | debounced check status and check_down alerts |
| `Wrappers`, `Sequences`, `Octets` | shared vocabulary |

## What turned out not to hold

Each of these has a run from the empty state in which it fails (the cursor, which keeps no state, needs none), and a
theorem that says when exactly it holds.

* The comment on `updateState` promises at most one firing record per rule and subject. A resolve save that fails
  leaves the record open while the tracker resets, and the next incident opens a second one
  (`FailedResolveLeavesTwoOpenRecords`). A step keeps the promise if and only if it is not such a resolve and not a
  restart whose seed query leaves a firing row out (`StepConsistency`).
* Firing notices of one alert are a cooldown apart within one process. A restart forgets the last one and goes by
  the moment the alert fired, which repeats a notice one millisecond later (`RestartRepeatsTooSoon`); it does so
  exactly when the alert fired at least a cooldown ago and was announced less than one ago
  (`RestartChangesAnnouncement`).
* The downsampler ignores the error of its lookup for an existing aggregate, so a failed lookup inserts a duplicate
  (`FailedLookupDuplicates`); a step keeps aggregates unique if and only if that does not happen (`StepUniqueness`).
* A row can go into two aggregates when it could not be deleted after the first (`FailedDeleteMergesTwice`): exactly
  when a later call takes it again, after its aggregate has moved on or past a failed lookup
  (`MergedTwiceExactlyWhen`).
* An aggregate can miss samples of its bucket, because the cutoff of a pass lies inside the bucket
  (`CutoffSplitsMinute`) or because a sample is late (`LateSampleArrives`); rows of a bucket that already has an
  aggregate are deleted unmerged (`LateRowsAreDiscarded`). `StepWholeness` and `RunWholeness` say which steps end
  it that aggregates account for all their samples. Where deletes work the condition can be read off the stored
  rows: a raw row under a stored aggregate, or an insert that leaves a finer row of its bucket out
  (`WorkingRunWholeness`); with failing deletes it cannot (`RemnantIsMissed`).
* The comment on `batchLoop` says nothing buffered is silently lost on shutdown. An entry that a reader puts into
  the channel after the drain found it empty stays there (`LateEntryIsStranded`); everything taken was sent if and
  only if no reader does that (`ShutdownSendsWhatWasQueued`).
* The log limit is a fixed window, so a limit of n > 1 lines per second lets through more than n lines within a second:
  (k + 1) * n consecutive lines span at least k seconds (`AdmissionRate`), and one line fewer need not
  (`BoundIsAttained`, for every n and k).
* A check whose success row could not be saved reads "down" again on its next single failure (`LostSuccessSticks`);
  `DownIffLastFailed` has the exact condition.
* The log cursor separates timestamp and id by an underscore and survives if and only if the id is nonempty and has
  none (`CursorRoundTrips`).
* Two `Send` calls that share a request id disturb each other (`SharedIdForgetsWaiter`). Every unanswered waiter
  stays listed if and only if no `Send` registers an id another one waits with and none leaves its id to a later one
  (`ListedUnlessCollides`).

## Model

| member | source | states |
|---|---|---|
| AlertEngine.Engine.constructor | internal/hub/alerts/engine.go:144-226 | a new process has exactly the trackers that the seeding rows stand for, and leaves records and notices alone |
| AlertEngine.Engine.SeedState | internal/hub/alerts/engine.go:165-226 | trackers rebuilt from firing rows, with the zero last-notified time for silenced ones |
| AlertEngine.Engine.UpdateState | internal/hub/alerts/engine.go:921-1011 | one evaluation, whichever of its saves fail, changes trackers, records and notices exactly as the transition system says |
| AlertEngine.Engine.UpdateStillFiring | internal/hub/alerts/engine.go:982-1011 | the same for an alert that already fired: refresh, silence, acknowledgement, cooldown, escalation |
| AlertEngine.Engine.ResolveAlert | internal/hub/alerts/engine.go:1202-1220 | closes the record and announces it only if the record exists and the save succeeded; otherwise nothing changes |
| AlertEngine.Engine.FireAlert | internal/hub/alerts/engine.go:1112-1150 | inserts one record, announces it unless silenced, and returns the empty id with nothing changed when the insert fails |
| AlertEngine.Engine.RefreshFiringAlert | internal/hub/alerts/engine.go:1158-1174 | returns the updated record only when it was found and saved |
| AlertEngine.Engine.MaybeEscalate | internal/hub/alerts/engine.go:1018-1040 | stamps the record before announcing, and does neither when it is not due, already escalated, or the stamp cannot be saved |
| AlertEngine.AlertStore.SetAcknowledged | internal/hub/api/alerts_routes.go:47-111 | acknowledging and unacknowledging touch one existing record and no tracker |
| AlertProofs.RunIsSound | internal/hub/alerts/engine.go:165-226 | over every run with any failures and restarts, a fired tracker points at a firing record of its own rule and subject with the same fired_at |
| AlertProofs.StepConsistency | internal/hub/alerts/engine.go:921-1011 | a step keeps the firing records of every key equal to its tracked one if and only if it is not a breach ending whose resolve save fails, nor a restart that misses a firing row |
| AlertProofs.OneOpenRecordPerIncident | internal/hub/alerts/engine.go:900-906 | in every state reached without such a step each rule and subject has exactly the tracked firing record, hence at most one, even when fire, refresh and escalate saves fail |
| AlertProofs.FailedResolveLeavesTwoOpenRecords | internal/hub/alerts/engine.go:934-942 | a run in which one failed resolve save leaves two firing records for one key |
| AlertProofs.RecordsEvolve | internal/hub/alerts/engine.go:1202-1220 | over any run a record keeps its subject and fired_at, is resolved at most once, never fires again, and its escalation time never changes |
| AlertMemory.RecordIsMade | internal/hub/alerts/engine.go:1112-1150 | over any run every record was made by an evaluation that opened its incident, and carries its rule, time and subject: as check_id for check_down and cert_expiry rules, as agent_id for all others |
| AlertMemory.StampsAreNotices | internal/hub/alerts/engine.go:1018-1040 | over any run a record says escalated or resolved at a time if and only if the notice of that was sent at that time |
| AlertMemory.AcknowledgedFollowsEvents | internal/hub/api/alerts_routes.go:47-111 | over any run a record is acknowledged if and only if the last request about its acknowledgement acknowledged it |
| AlertMemory.SilenceFollowsEvents | internal/hub/alerts/engine.go:1158-1174 | over any run a record says silenced if and only if the last evaluation that could save it was |
| AlertMemory.RecordAndTrackerAgree | internal/hub/alerts/engine.go:206-219 | a fired tracker and its record agree on silence, across restarts |
| AlertProofs.SeedTakesLast | internal/hub/alerts/engine.go:183-219 | of several firing rows of one rule and subject a new process tracks the last, at the level of its rule |
| AlertProofs.NotifiesExactlyWhen | internal/hub/alerts/engine.go:954-1008 | an event sends a firing notice of a record if and only if it is a breaching, unsilenced evaluation at that time that either opens the incident with a successful insert, or refreshes the unacknowledged record and finds that it was last seen silenced, was never announced, or was announced at least 300000 milliseconds ago |
| AlertSilence.SilenceEndsWithNotice | internal/hub/alerts/engine.go:993-1008 | after an evaluation that found the alert silenced, the one that opened it included, and any events but a restart and evaluations of its key, the next unsilenced evaluation announces it, however recently it was announced |
| AlertSilence.SilenceOutlivesRestart | internal/hub/alerts/engine.go:206-219 | the same after a restart that finds the record silenced |
| AlertSilence.AnnouncesAgainExactlyWhen | internal/hub/alerts/engine.go:1005-1008 | over all runs, restarts included, an unsilenced evaluation of a firing, unacknowledged alert announces it if and only if the last evaluation found it silenced, or the process has not announced it yet, or did so at least five minutes ago, where a new process counts the moment an unsilenced record fired |
| AlertProofs.AcknowledgedStaysQuiet | internal/hub/alerts/engine.go:1000-1003 | over any run with any failures and restarts an acknowledged record stays acknowledged and is neither announced as firing nor escalated until the acknowledgement is taken back |
| AlertProofs.ResolvesExactlyWhen | internal/hub/alerts/engine.go:1194-1220 | an event sends a resolution notice if and only if it is the end of the breach whose tracker points at that firing record and the save succeeds, silenced or not |
| AlertProofs.EscalatesExactlyWhen | internal/hub/alerts/engine.go:1018-1040 | an event escalates a record if and only if it is a breaching, unsilenced evaluation of that firing, unacknowledged, never escalated record, escalation_after is positive, its whole number of seconds has passed since fired_at, and both saves succeed |
| AlertProofs.ToldExactlyOnce | internal/hub/alerts/engine.go:1013-1040 | over all runs, restarts included, a record has one escalation notice if escalated_at is set and none otherwise, and one resolution notice if it is resolved and none otherwise |
| AlertHistory.FiringNoticesAreSpaced | internal/hub/alerts/engine.go:1005-1008 | two consecutive firing notices of one alert in one process are a cooldown apart unless an evaluation between them found it silenced |
| AlertHistory.NoticeAfterRestart | internal/hub/alerts/engine.go:206-219 | after a restart, whatever else happens but silence, an alert is announced again if and only if a cooldown has passed since fired_at, whenever it was announced before |
| AlertHistory.RestartChangesAnnouncement | internal/hub/alerts/engine.go:206-219 | compared with the same events without the restart, a notice goes out that would have been held back if and only if the alert fired at least a cooldown ago and was announced less than one ago |
| AlertHistory.RestartRepeatsTooSoon | internal/hub/alerts/engine.go:206-219 | a run that announces one alert at 1, 300001 and, after a restart, 300002 |
| AlertHistory.TrackerFollowsHistory | internal/hub/alerts/engine.go:932-1011 | without restarts, whether a tracker is idle, when its breach began and whether it has fired are determined by the observations of its key: fired exactly when the current breach run holds a later observation at least its duration after the first whose insert succeeded, and then record, time and level are those of the first such observation and the silence flag is the one stored last |
| DownsamplerLoops.AverageMaps | internal/hub/metrics/downsampler.go:230-260 | whatever order the keys are visited in: a field is numeric exactly when some map holds a number for it, and then its value times the number of such maps is their total; otherwise it is the last text |
| DownsamplerMeans.TotalsAdd | internal/hub/metrics/downsampler.go:236-244 | totals and counts of two lists of maps add up |
| DownsamplerMeans.MeanIgnoresOrder | internal/hub/metrics/downsampler.go:246-251 | numeric fields of an average do not depend on the order of the maps |
| DownsamplerMeans.AggregateIsMean | internal/hub/metrics/downsampler.go:205-223 | a field of an aggregate is the mean over the rows that parse and hold a number for it, and _samples is the number of all rows |
| DownsamplerMeans.InsertIsMean | internal/hub/metrics/downsampler.go:179-197 | the aggregate a call inserts holds, field by field, the mean over the batch rows of its bucket, and their number |
| DownsamplerLoops.Downsampler.AverageData | internal/hub/metrics/downsampler.go:205-223 | averages the rows that parse and counts all of them as samples |
| DownsamplerLoops.Downsampler.DeleteRecords | internal/hub/metrics/downsampler.go:263-269 | removes exactly the given rows whose delete succeeds |
| DownsamplerLoops.Downsampler.GroupByBucket | internal/hub/metrics/downsampler.go:135-146 | one entry per agent, type and bucket of the batch, with its rows in batch order |
| DownsamplerLoops.Downsampler.VisitBuckets | internal/hub/metrics/downsampler.go:154-201 | for every order of the bucket map the store ends in the one state that the order-free definition gives |
| DownsamplerLoops.Downsampler.Downsample | internal/hub/metrics/downsampler.go:111-202 | one call is one step of the transition system, with partial batches and failing lookups, saves and deletes |
| DownsamplerLoops.Downsampler.AggregateMetrics | internal/hub/metrics/downsampler.go:96-107 | the three calls in cascade order with their cutoffs |
| DownsamplerPasses.YoungRowsStay | internal/hub/metrics/downsampler.go:96-107 | a pass leaves alone raw rows of the last five minutes, minute rows of the last thirty, five-minute rows of the last six hours, and all hourly rows |
| DownsamplerPasses.PassTakesWhatIsDue | internal/hub/metrics/downsampler.go:96-107 | a pass in which nothing fails and no batch is full takes away exactly the rows past these ages |
| DownsamplerRuns.PassIsThreeCalls | internal/hub/metrics/downsampler.go:96-107 | a pass in the runs below is one call of aggregateMetrics |
| DownsamplerProofs.BucketsNest | internal/hub/metrics/downsampler.go:99-106 | truncating to one bucket size and then to the next is truncating once |
| DownsamplerProofs.BucketHoldsTime | internal/hub/metrics/downsampler.go:137-139 | a time lies in the bucket it truncates to, and buckets are aligned to their length |
| DownsamplerProofs.MeanIsBetween | internal/hub/metrics/downsampler.go:246-251 | a mean lies between two of the values it averages |
| DownsamplerProofs.RunsKeepCoverageAndHull | internal/hub/metrics/downsampler.go:96-202 | over any run every raw sample ever stored is still stored itself or lies under a stored aggregate of its agent, type and bucket, and every numeric field but the sample count lies between raw values its row descends from |
| DownsamplerProofs.DeletedOnlyIfAggregated | internal/hub/metrics/downsampler.go:173-201 | a row is deleted only when its bucket's aggregate is stored afterwards |
| DownsamplerProofs.StepUniqueness | internal/hub/metrics/downsampler.go:159-177 | a step keeps one aggregate per agent, type and bucket if and only if no failed lookup hid an existing one from a successful insert |
| DownsamplerProofs.OneAggregatePerBucket | internal/hub/metrics/downsampler.go:135-201 | in every state reached without such a lookup, aggregates are unique and bucket-aligned, and no raw sample counts towards two rows of one resolution |
| DownsamplerWhole.StepWholeness | internal/hub/metrics/downsampler.go:111-202 | when every stored aggregate accounts for all raw samples ever stored in its bucket, a step keeps it so if and only if it is neither a raw row arriving under a stored aggregate, nor an insert that leaves a finer row of its bucket outside the batch, nor one that merges what is left of a bucket already aggregated |
| DownsamplerWhole.RunWholeness | internal/hub/metrics/downsampler.go:96-202 | over any run aggregates account for all their samples throughout if and only if no step is one of these |
| DownsamplerWhole.LayeredInsertMisses | internal/hub/metrics/downsampler.go:113-123 | while no stored row lies under a coarser aggregate, an insert misses a sample exactly when a finer row of its bucket, at any resolution, is outside the batch |
| DownsamplerWhole.WorkingRunWholeness | internal/hub/metrics/downsampler.go:96-202 | over any run whose deletes work, aggregates account for all their samples throughout if and only if no raw row arrives under a stored aggregate and no insert leaves a finer row of its bucket outside the batch |
| DownsamplerWhole.SettledBucketsAreWhole | internal/hub/metrics/downsampler.go:113-123 | a batch below its limit holds every row of the buckets that end by the cutoff |
| DownsamplerWhole.LateRowsAreDiscarded | internal/hub/metrics/downsampler.go:173-177 | a row that arrives after its bucket was aggregated is deleted and the aggregate does not change |
| DownsamplerMerges.MergedIsGoneOrShielded | internal/hub/metrics/downsampler.go:199-200 | after the call that merged it a row is gone if and only if its delete succeeded, and the aggregate of its bucket is stored either way |
| DownsamplerMerges.ShieldChanges | internal/hub/metrics/downsampler.go:159-201 | a bucket's aggregate is stored after a step if and only if the step inserts it, or it was stored and the step does not move every aggregate of the bucket on to the next resolution |
| DownsamplerMerges.MergesExactlyWhen | internal/hub/metrics/downsampler.go:159-197 | a call merges a row if and only if the row is in its batch, the insert goes through, and no aggregate of its bucket is stored or the lookup failed |
| DownsamplerMerges.MergedTwiceExactlyWhen | internal/hub/metrics/downsampler.go:96-202 | over any run a row goes into two aggregates if and only if a call merged it while its delete failed and a later one took it again, after its aggregate had moved on or past a failed lookup |
| DownsamplerMerges.MergedAtMostOnce | internal/hub/metrics/downsampler.go:199-200 | a row whose deletes succeed goes into at most one aggregate over any run, and is gone after it |
| DownsamplerRuns.FailedDeleteMergesTwice | internal/hub/metrics/downsampler.go:96-107 | seven passes, five minutes apart, that put a row whose deletes fail into two aggregates |
| DownsamplerRuns.FailedLookupDuplicates | internal/hub/metrics/downsampler.go:159-177 | two passes that leave two aggregates of one bucket |
| DownsamplerRuns.CutoffSplitsMinute | internal/hub/metrics/downsampler.go:96-107 | two passes that leave samples 10 and 30 of one minute as an aggregate of 10, because the first cutoff lies between them |
| DownsamplerRuns.LateSampleArrives | internal/hub/metrics/downsampler.go:173-177 | the same result when the second sample arrives after the first was merged |
| DownsamplerRuns.RemnantIsMissed | internal/hub/metrics/downsampler.go:199-200 | six passes after which all aggregates are complete, and a seventh that leaves no row of the bucket out and still inserts an incomplete one, because a delete failed earlier |
| Uptime.Merge | internal/hub/uptime/uptime.go:26-47 | the result covers exactly the instants the input covers, as strictly separated intervals in order, empty only for empty input |
| Uptime.SeparatedIsCanonical | internal/hub/uptime/uptime.go:22-25 | separated nonempty intervals are determined by what they cover, so the unstable sort cannot show |
| Uptime.DowntimeIsMeasure | internal/hub/uptime/uptime.go:59-72 | the summed overlaps never miss downtime and are the exact measure for separated intervals |
| Uptime.MeasureSplits | internal/hub/uptime/uptime.go:53-82 | downtime is additive over adjacent windows |
| Uptime.UptimePercent | internal/hub/uptime/uptime.go:53-82 | in 0 to 100 always, never above the true uptime, equal to it for merged intervals, and 100 for an empty window |
| Uptime.AlertIntervals | internal/hub/api/public_status.go:395-419 | the intervals kept cover an instant of the window if and only if some alert had fired by then and was not resolved yet, one still firing counting up to now |
| Uptime.DailyBars | internal/hub/api/public_status.go:427-444 | each bar is the true uptime of its own day |
| Uptime.AgentMetrics | internal/hub/api/public_status.go:372-447 | the three windows and every bar are the share of instants at which no alert was active |
| Uptime.ActiveIsMeasure | internal/hub/api/public_status.go:395-419 | the measure of the alert spans is the number of instants at which some alert was active |
| Uptime.BarsAverageToWindow | internal/hub/api/public_status.go:421-444 | the bars average to the figure of the whole displayed window |
| LogPaging.EffectiveLimit | internal/hub/api/logs_routes.go:74-82 | the requested limit when it is 1 to 500, 500 when it is more, 100 when it is less or missing |
| LogPaging.CursorRoundTrips | internal/hub/api/logs_routes.go:199-215 | a cursor parses back to its row if and only if the id is nonempty and has no underscore, for every 64-bit timestamp |
| LogPaging.CursorsHaveThisForm | internal/hub/api/logs_routes.go:205-215 | a string is taken for a cursor if and only if it is a number, an underscore, and a nonempty id without one |
| LogPaging.ParsesNumerals | internal/hub/api/logs_routes.go:210 | exactly the decimal numerals of 64-bit integers parse, with a sign or none, to the number their digits stand for |
| LogPaging.FormatsPlainly | internal/hub/api/logs_routes.go:200-201 | the timestamp is written with a minus sign if negative and no leading zero |
| LogPaging.HandleLogsQuery | internal/hub/api/logs_routes.go:71-154 | the newest rows below the cursor, at most limit, with a next cursor exactly when the page is full |
| LogPaging.PageHoldsNewest | internal/hub/api/logs_routes.go:118-126 | a row is on the page if and only if it is older than the cursor, by time and then by id, and fewer than limit such rows are newer; the page lists them newest first |
| LogPaging.NothingRepeats | internal/hub/api/logs_routes.go:118-151 | pages obtained by following next_before are strictly descending together, however the rows change between requests |
| LogPaging.NothingStableIsMissed | internal/hub/api/logs_routes.go:118-151 | a walk that ended has returned every row that was there throughout |
| LogPaging.FollowReturnsEverything | internal/hub/api/logs_routes.go:118-151 | on an unchanging store the walk returns all rows once, newest first, in floor(n / limit) + 1 requests |
| Broker.PendingMap.TakeWaiter | internal/hub/commands/broker.go:84-90 | HandleResponse's critical section: a waiter is found exactly when its id is pending, and then it is no longer |
| Broker.PendingMap.DeliverResponse | internal/hub/commands/broker.go:92-99 | the channel send that never blocks |
| Broker.PendingMap.Select | internal/hub/commands/broker.go:69-76 | each branch of Send's select leaves with that branch's outcome |
| Broker.CallFollowsEvents | internal/hub/commands/broker.go:61-76 | over every run a Send leaves with "agent not reachable" if and only if its dispatch found no agent, with a timeout or cancellation if and only if it gave up with that one, and with a response if and only if it received one |
| Broker.FirstIsFirstArrival | internal/hub/commands/broker.go:84-90 | the recorded response of a Send is the first one with its id looked up while it was in flight |
| Broker.ReturnsFirstOwnResponse | internal/hub/commands/broker.go:42-44 | under every interleaving a Send returns only that response |
| Broker.ConsumedOnce | internal/hub/commands/broker.go:69-72 | no response is returned by two Sends |
| Broker.DeliveryAlwaysFits | internal/hub/commands/broker.go:93-98 | the branch for a waiter that already gave up is never taken |
| Broker.PendingDrains | internal/hub/commands/broker.go:56-60 | the map is empty once every Send has returned |
| Broker.NoWaiterIsForgotten | internal/hub/commands/broker.go:84-99 | a waiting Send is still registered, or its response is in its channel or on its way there |
| Broker.ListedExactlyWhen | internal/hub/commands/broker.go:50-60 | whatever ids callers use, a step keeps every unanswered waiter named by the map under its id if and only if it does not register an id another Send waits with, nor unregister one to which another Send has come |
| Broker.ListedUnlessCollides | internal/hub/commands/broker.go:50-60 | over any run every unanswered waiter stays listed throughout if and only if no step is one of these |
| Broker.SharedIdForgetsWaiter | internal/hub/commands/broker.go:56-60 | a run of two Sends sharing an id: the first one times out, and its deferred delete takes the entry of the second, which still waits |
| LogPipeline.Manager.Allow | internal/agent/logs/manager.go:185-202 | answers and moves the window as the limiter on values does |
| LogPipeline.Manager.TrySend | internal/agent/logs/manager.go:175-179 | never blocks: the entry joins the channel or is to be counted as dropped |
| LogPipeline.Manager.FlushBuffer | internal/agent/logs/manager.go:213-220 | sends buffer and drop count together and clears both, or nothing when both are empty |
| LogPipeline.Manager.Drain | internal/agent/logs/manager.go:231-242 | the drain moves everything queued into the buffer in order |
| LogLimiter.AdmitsFirstOfWindow | internal/agent/logs/manager.go:183-202 | of the calls within a second of the one that opened their window the first limit are admitted and the others refused; without a limit all are admitted |
| LogLimiter.AdmissionsAreSpaced | internal/agent/logs/manager.go:183-202 | (k + 1) * limit consecutive admissions span at least k seconds |
| LogLimiter.BoundIsAttained | internal/agent/logs/manager.go:183-202 | for every limit and every k there are calls of which (k + 1) * limit - 1 consecutive ones are admitted in less than k seconds |
| LogPipeline.RunKeepsInv | internal/agent/logs/manager.go:166-244 | under every interleaving each emitted entry is in a batch, the buffer, the channel, a reader's hands, or a drop count |
| LogPipeline.DropsAreExact | internal/agent/logs/manager.go:166-181 | reported and pending drops are exactly the entries neither accepted nor still being emitted |
| LogPipeline.LimiterDecides | internal/agent/logs/manager.go:166-181 | an emitted entry is offered to the channel if and only if there is no limit or it is among the first of its window, and otherwise on its way to being counted |
| LogPipeline.BatchesFollowTheChannel | internal/agent/logs/manager.go:204-230 | the batches together are a prefix of what the channel took, with each reader's entries in emit order |
| LogPipeline.OnlyTheLastBatchIsLong | internal/agent/logs/manager.go:224-228 | only the shutdown flush can exceed the batch size |
| LogPipeline.BatchesAreFull | internal/agent/logs/manager.go:222-228 | until the ticker ticks, every batch but the shutdown flush holds exactly the batch size |
| LogPipeline.FlushLeavesNothing | internal/agent/logs/manager.go:213-220 | after a flush all that was received is in batches and all drops are reported |
| LogPipeline.AdmissionRate | internal/agent/logs/manager.go:183-202 | the spacing bound for every run of the pipeline |
| LogPipeline.ShutdownSendsWhatWasQueued | internal/agent/logs/manager.go:204-207 | a returned loop has sent exactly what the channel had taken when the drain found it empty, and everything the channel took if and only if no reader put an entry into it after that |
| LogPipeline.NothingAfterStop | internal/agent/logs/manager.go:231-242 | no batch is sent after the loop returned |
| LogPipeline.LateEntryIsStranded | internal/agent/logs/manager.go:204-242 | a run in which an accepted entry is never sent |
| WsTransport.Transport.Send | internal/agent/transport/ws.go:162-176 | fails and counts exactly when the queue is full |
| WsTransport.Transport.Dial | internal/agent/transport/ws.go:119-128 | backoff doubles after a failure and resets after a connection |
| WsTransport.Transport.WriteMessage | internal/agent/transport/ws.go:300-305 | a failed write loses the message in hand and ends the pump |
| WsTransport.Transport.WriteHeartbeat | internal/agent/transport/ws.go:307-324 | a heartbeat carries the counter read when it was prepared |
| WsTransport.WireFollowsSends | internal/agent/transport/ws.go:278-330 | across any reconnects the messages on the wire are an order-preserving part of the accepted ones, each of which is written, in hand, queued or lost |
| WsTransport.OneLossPerConnection | internal/agent/transport/ws.go:300-305 | no connection loses two messages |
| WsTransport.DroppedCountsFullQueue | internal/agent/transport/ws.go:51-56 | droppedMessages is the number of sends that found the queue full |
| WsTransport.SendsAreCounted | internal/agent/transport/ws.go:168-175 | a send is accepted if and only if fewer than 256 messages were queued, and every other one is counted |
| WsTransport.HeartbeatsNeverGoBack | internal/agent/transport/ws.go:307-311 | the counters the hub receives never decrease and never exceed the agent's |
| WsTransport.HeartbeatsCarryRefusals | internal/agent/transport/ws.go:307-324 | each heartbeat written carries the number of sends refused when it was prepared |
| WsTransport.PumpFollowsConnection | internal/agent/transport/ws.go:278-330 | the pump runs from a connection to the first failed write on it, of a message or a heartbeat, or to being stopped |
| WsTransport.BackoffDoubles | internal/agent/transport/ws.go:337-365 | after k failed dials since the last connection the next wait is 2^k seconds, at most sixty |
| FileTailer.ScanIsLossless | internal/agent/logs/file.go:158-161 | lines and rest give the bytes back and contain no newline |
| FileTailer.ScanIsTheOnlySplit | internal/agent/logs/file.go:158-161 | no other newline-free lines and rest do |
| FileTailer.TailState.ReadAll | internal/agent/logs/file.go:163-175 | every byte read is appended to the pending ones |
| FileTailer.TailState.EmitLines | internal/agent/logs/file.go:177-192 | emits the nonempty trimmed complete lines and keeps what follows the last newline |
| FileTailer.TailState.DrainNewLines | internal/agent/logs/file.go:162-193 | all that was emitted stays the messages of all bytes read, file by file, and pending stays the unfinished line |
| FileTailer.ReadsJoin | internal/agent/logs/file.go:163-175 | the bytes of several reads are those of each in turn, also of one that came with an error |
| FileTailer.TailState.Poll | internal/agent/logs/file.go:80-118 | a tick reads on, starts a new file after rotation or truncation, or does nothing, remembers the stat or forgets the file accordingly, and keeps the same relation |
| FileTailer.ComparesWithLastStat | internal/agent/logs/file.go:96-116 | after a tick that read on or opened a file, and any number of failed stats, the next tick starts a new file if and only if its stat has another inode or a smaller size than that one saw, and the path can be opened |
| FileTailer.ReadsOnWhileGrowing | internal/agent/logs/file.go:96-116 | while the path keeps its inode the tailer never starts over if and only if the sizes never shrink from one tick to the next |
| FileTailer.TicksDoNotMatter | internal/agent/logs/file.go:47-56 | however the bytes are cut into ticks, messages and pending are those of the whole |
| FileTailer.MessageComesFromLine | internal/agent/logs/file.go:182-191 | a message is a nonempty complete line without its carriage return, and every such line is one |
| FileTailer.ShownOnce | internal/agent/logs/file.go:182-191 | each line is shown once, or not at all when it is empty up to a carriage return |
| Utf8.LastRuneIsWhole | internal/hub/logs/service.go:116-119 | the loop stops exactly at a complete character of section 4 of RFC 3629 |
| Utf8.RunesAreCodePoints | internal/hub/logs/service.go:110-123 | what counts as a character is exactly the encoding, by section 3 of RFC 3629, of a code point that is no surrogate |
| Utf8.TruncateUTF8 | internal/hub/logs/service.go:110-123 | for any bytes the longest prefix within the limit that is empty or ends in a whole character; for well-formed text the longest well-formed prefix, at most three bytes short |
| Prometheus.EscapeIsSubstitution | internal/hub/api/prometheus.go:179-184 | the three replacements in a row equal one substitution per character |
| Prometheus.EscapedReadsBack | internal/hub/api/prometheus.go:176-184 | an escaped value in quotes reads back as the value and ends at its own closing quote |
| Prometheus.EscapeIsInjective | internal/hub/api/prometheus.go:179-184 | different values never escape to the same text |
| Prometheus.EscapeHasNoNewline | internal/hub/api/prometheus.go:176-184 | no raw newline is left |
| Prometheus.MetricFamily.Add | internal/hub/api/prometheus.go:125-148 | appends one line holding the label pairs in order, an odd last argument ignored |
| Prometheus.LabelsAreArguments | internal/hub/api/prometheus.go:134-144 | the i-th label is named by argument 2i and has argument 2i + 1 for its value, for half as many labels as arguments |
| Prometheus.LineReadsBack | internal/hub/api/prometheus.go:125-148 | a sample line reads back as its name, its number, and its arguments in pairs as label names and values |
| Prometheus.BufferReadsBack | internal/hub/api/prometheus.go:114-148 | a family's whole buffer reads back as its samples in order, each with its arguments in pairs |
| IpLimiter.IpRateLimiter.Allow | internal/hub/api/public_status.go:507-534 | allowed if and only if fewer than limit attempts of the address, out of all it ever made, were less than a window ago; every thousandth call leaves only addresses with an attempt not before the cutoff |
| IpLimiter.IpRateLimiter.Sweep | internal/hub/api/public_status.go:525-531 | forgets only addresses whose every attempt is out of the window |
| IpLimiter.AtMostLimitPerWindow | internal/hub/api/public_status.go:502-506 | any span shorter than the window holds at most limit allowed requests of one address |
| IpLimiter.RefusedWhileAttemptsPileUp | internal/hub/api/public_status.go:502-503 | refused attempts count as well, so a client that keeps trying stays refused |
| Checks.Scheduler.RunOnce | internal/hub/checks/scheduler.go:221-267 | the streak moves even when the row cannot be saved, the remembered status only when it can |
| Checks.SavedStatusFollowsAttempts | internal/hub/checks/scheduler.go:221-293 | over any run with failed saves and changing quotas, a saved row says "down" exactly when an attempt completed its quota with no saved success since |
| Checks.DownIffLastFailed | internal/hub/checks/checks.go:114-130 | an attempt reads "down" if and only if it completes N failures in a row (one when N is less), except a failure that finds "down" remembered with fewer than N - 1 counted |
| Checks.SteadyIsNeverStale | internal/hub/checks/checks.go:114-130 | with a fixed quota and every success row saved that exception never arises |
| Checks.LostSuccessSticks | internal/hub/checks/scheduler.go:249-262 | a run in which a lost success row makes one failure read "down" although N is two |
| Checks.RowIsLastSaved | internal/hub/checks/scheduler.go:249-262 | the stored row says what the last attempt that saved one read, across restarts |
| Checks.BreachIsLastSavedDown | internal/hub/alerts/engine.go:338-347 | evalCheckDown finds a breach if and only if the last attempt that saved a row read "down" |
| Checks.DownRowHasEvidence | internal/hub/checks/scheduler.go:235-251 | a "down" row has N failures in a row behind it and no success since, across restarts |
| Checks.CheckDownAlertHasEvidence | internal/hub/alerts/engine.go:333-347 | a check_down alert is created only when its check failed N times in a row and has not succeeded since |

## Left out

- Time is in integer ticks (milliseconds, or nanoseconds on the agent); real numbers stand for floats, and
  `round2` and `roundTo2` are outside the theorems.
- One clock reading per evaluation. The source reads the clock again when it fires or resolves an alert, so there the
  stored fired_at can differ by the time between the two readings from the one the tracker remembers, which here is
  the same.
- The value, message and acknowledged_by fields of an alert, message rendering and notification channels: a notice
  is its kind, its record and its time.
- Deletion of alert records by an operator. The evaluation of a record that is gone is modelled, the deletion is
  not an event.
- How a rule is matched to agents and how a breach is measured (`matchesTargets`, `isSilenced`, `checkCondition` and
  the other evaluators): the breach and silence flags are parameters of an observation.
- The row limits of the rule, silence and check queries; the seed query's limit of 1000 and the batch limit of 500
  are modelled.
- Retention purges, so coverage is about downsampling alone.
- The part of `computeAgentMetrics` that counts incidents per day, and calendar days of other than 24 hours.
- The page filters other than the cursor: a request sees the set of rows that pass them.
- Concurrent runs of one check: the debounce and the update of `latest` are separate critical sections in the
  source.
- Clocks that go back. Monotonic clock readings are assumed for the log limit and the address limit.
- 64-bit wrap-around of the drop counters.
- What a failed socket write had already put on the wire; it counts as lost.
- The HELP and TYPE header of a metric family, and the formatting of numbers: the number is a text without a newline.
  Metric and label names are those the format allows.
- Journald reading, source restarts, level detection, the read pump, the hub's connection registry, self-update,
  check history sampling, audit, reports and backups.
- DownsamplerProofs.RunsKeepCoverageAndHull: says nothing of text fields, whose last value depends on row order only.
- Checks.DownRowHasEvidence: one direction only, because the first failures after a restart read "up" although the
  evidence from before the restart still stands; within one process `SavedStatusFollowsAttempts` has both.
