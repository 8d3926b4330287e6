# A verified model of the PC diagnostic agent

The agent samples a Windows machine every few seconds, tails the event log, and after a reboot decides from what it
stored whether the previous session hung, lost power, blue-screened or was shut down on purpose. A scheduler collects
and prunes, a watchdog restarts the scheduler, and a simulation harness feeds the engine synthetic incidents.

This project models those parts in Dafny and proves what they promise together. The database is one value
(`Storage.Store`) behind a class whose methods are the locked calls. Every imperative routine is a method proved equal to
a function on that value. `Machine` puts the agent, the log and the clock together as one state machine; most main
results are statements about all its runs.

| file | what it holds |
|---|---|
| `Storage`, `Prelude`, `Configuration` | tables, atomic calls, selections and maxima over rows |
| `EventAnalyzer`, `EventKinds`, `ProviderText` | event categories and summaries; the complete rule table over text and id, and how concrete providers classify |
| `EventTail`, `TailRuns`, `TailSafety` | the backwards batched log read with its cursor; refinement, crashes, clears, cut reads |
| `BootDetector`, `SessionChain`, `SessionFlags`, `DetectionCrashes` | session reuse, finalisation and creation; the session table and its flags over all runs, and when a detection dies half-way |
| `Termination`, `Diagnosis`, `EngineSpec`, `ConditionSpec` | the rule engine, its complete classification table, and the evidence behind each finding |
| `Machine`, `Lifecycle`, `Scheduling` | the state machine, the startup phases, the collection loop as a run of the machine |
| `Agreement`, `IncidentRuns`, `Attribution` | on-demand against startup diagnosis, incident uniqueness, event attribution |
| `Retention`, `Evidence`, `Recomputation` | pruning, surviving evidence, and when a recorded verdict can be recomputed |
| `Intervals`, `StorageBound` | packing, the storage bound |
| `Cadence`, `SchedulerRuns`, `WatchdogCheck`, `RestartProtocol` | when the loop runs its cycles and prunes, heartbeat timing, the staleness check, restarts over every interleaving |
| `Scenarios`, `ScenarioOutcomes` | the synthetic incidents with free parameters, and their verdicts |
| `Processes` | the top-process selection |
| `Figures` | the constants, against the repository's own |

Time is exact (`real`); an interval is any positive number unless a statement restricts it.

## What came out

Some promises hold only under a condition. Each condition below is proved exact, or the failing case is proved.

- A read that meets the 1000-record cap or fails half-way still moves the cursor past what it did not read. A run catches
  up if and only if it was complete (`CatchesUpIff`); what it skipped is lost in every continuation (`SkippedIsLost`).
- A crash between the three commits never loses a record (`AtLeastOnce`), but can store some twice. With any new records
  in the log by then, the next run stores a record again if and only if its batches reach past the new records, none of
  those is stale to it, and either the id was not committed or the newest old record is newer than the timestamp that was
  not committed (`CrashStoresTwiceIff`). So after a reboot that only adds newer records, a full read is decided by the
  uncommitted part of the cursor alone (`CompleteRecoveryStoresTwiceIff`); a read cut short of the old records, or stopped
  by a stale new one, or of a cleared log duplicates nothing (`CutRecoveryStoresOnce`, `ClearedRecoveryStoresOnce`).
- Boot detection runs before the startup's own event collection, so a clean shutdown that arrives with that collection is
  seen too late: the previous session stays marked unclean exactly then (`CleanShutdownSeenTooLate`).
- On a service restart the flags are copied from the open row, while on-demand diagnosis reads the row before it. The two
  start from the same facts if and only if the boot time is unchanged and the earlier row is not marked clean
  (`RestartAgreesIff`). With the boot time unchanged, they contradict each other about an incident exactly when that row is
  clean, there is no blue screen and there is power or 6008 evidence (`RestartContradictsIff`). The module comment of
  `diagnostics/boot_detector.py` says every startup creates a session row; the code reuses the latest row for a boot time
  within 60 seconds, and the model follows the code.
- A boot detection that dies between its commits never breaks the order, spacing, finalisation or uptimes of the session
  table (`SessionTableSurvivesCrashes`). Dead after finalising, the next detection makes it good exactly unless that one is
  taken for the previous boot (`FinalisingIsRedoneIff`). Dead after creating the row, the link to the previous boot is
  missing for good: a restart then looks back over the retention time instead (`UnlinkedRow`, `UnlinkedVerdicts`).
- The 120-second boot margins overlap the next transition. Events there are attributed to both transitions
  (`AttributedAtMostTwice`), and a blue screen makes a BSOD of two successive boots exactly if it is stamped there
  (`BlueScreenDeclaredTwiceIff`).
- The repository's README lists `UNEXPECTED_REBOOT` and `UNKNOWN` among the emitted incident types. Neither is reachable
  (`ClassificationTable`).
- The shipped power-loss timeline has the expected outcome exactly for intervals above 15 seconds: under the allowed
  interval of 10 seconds the engine reports a hard hang (`ShippedTimelines`).
- A join given up while restarting the scheduler leaves two live scheduler threads, since clearing the shared stop flag
  revives the old one (`GivenUpJoinLeavesTwo`).
- The last activity of a recorded incident comes out of the store again, whatever follows, if and only if a stored activity
  row backed it when it was recorded, or no later cycle writes the heartbeat; the inference does if and only if, besides,
  the end was explained without a silence (`VerdictRecomputableIff`). It fails after a cycle that stored nothing but its
  heartbeat (`BareBeatIsLost`). A scheduler whose high cycles succeed and store an activity row always meets the condition,
  provided the retention time covers one interval and the delay of the prune (`LivesKeepEvidence`).
- Rows stamped in the future of a clock that was set back are recent to every prune, so the storage bound grows by the time
  the clock is behind (`StorageIsBounded`).

## Model

| member | source | states |
|---|---|---|
| Storage.InsertOnlyAppends | storage/database.py:71-99 | Storing a snapshot only appends, in every table, and only rows stamped with the cycle's own clock reading |
| Storage.AddedMeans | storage/database.py:71-99 | The rows a cycle adds to a table are exactly its values for that table, stamped with the cycle |
| Retention.CountIsRowsAdded | storage/database.py:71-99 | The count a cycle's insert returns is the number of rows all tables together gain |
| Storage.Database.InsertSnapshot | storage/database.py:71-99 | The row loops leave the metric tables extended by the snapshot, everything else untouched, and count the rows |
| Storage.Database.InsertEvents | storage/database.py:101-133 | The events table grows by exactly the given rows, in order, stamped with the session |
| Storage.Database.CreateSession | storage/database.py:136-143 | One fresh row with the next id and no outcome yet |
| Storage.Database.UpdateSession | storage/database.py:145-166 | Only passed fields of the row with that id change |
| Storage.Database.CreateIncident | storage/database.py:183-225 | One incident appended under the next id; nothing else changes |
| Storage.Database.UpdateHeartbeat | storage/database.py:250-260 | The heartbeat is an upsert of one value |
| Storage.HighestIsLast | storage/database.py:168-173 | With ids handed out in order, the latest session is the last row and the next id is one more than their number |
| Storage.HighestBelowIsPredecessor | diagnostics/diagnosis.py:383-387 | The row selected below an id is that id's predecessor |
| EventAnalyzer.Summarize | diagnostics/event_analyzer.py:94-119 | The loop over counters and lists computes, for every category, exactly the events of that category in order, and how many |
| EventAnalyzer.SummaryIsUnique | diagnostics/event_analyzer.py:94-119 | Being a summary of the events determines every count and list |
| EventAnalyzer.Partition | diagnostics/event_analyzer.py:54-119 | Every event lands in exactly one of the nine categories: their lists together permute the input and their counts add up to its length |
| EventAnalyzer.Homomorphism | diagnostics/event_analyzer.py:94-119 | Summarising a concatenation adds the counts and concatenates the lists |
| EventAnalyzer.LowBitsDecide | diagnostics/event_analyzer.py:38-91 | Moving an id by any multiple of 65536, negative storage included, does not change the category |
| EventAnalyzer.HighBitsIrrelevant | diagnostics/event_analyzer.py:38-51 | How ids were stored cannot change any count of a whole summary |
| EventKinds.KindTable | diagnostics/event_analyzer.py:29-91 | The complete table for every event: each of the nine categories has its exact condition in terms of which names the trimmed provider contains in whatever case, the low 16 bits of the id, and the message |
| EventKinds.MentionsIff | diagnostics/event_analyzer.py:33-35 | A lower-cased search finds exactly the occurrences in whatever case |
| EventKinds.StripTrims | diagnostics/event_analyzer.py:29-30 | Stripping removes the blanks around the provider and nothing else (`TrimIsUnique` makes that the only such text) |
| EventKinds.WheaKind | diagnostics/event_analyzer.py:65-71 | Every event of the two hardware error loggers is a hardware error, unless it is a 1001 whose message names a bugcheck |
| EventKinds.DiskKind | diagnostics/event_analyzer.py:73-77 | An event of a listed disk driver is a disk error exactly for the twelve ids |
| EventKinds.DisplayKind | diagnostics/event_analyzer.py:65-80 | Every event of a listed display driver is a display error, unless it is a 1001 whose message names a bugcheck |
| EventKinds.ServiceControlKind | diagnostics/event_analyzer.py:65-91 | Events of the Service Control Manager are service events, except for the ids that speak for themselves |
| ProviderText.EventLogKind | diagnostics/event_analyzer.py:54-91 | For every id of the Event Log service: 41 is the power signal, 6006 and 1074 clean, 6008 unexpected, 1001 a blue screen if the message says so, anything else routine |
| ProviderText.User32Kind | diagnostics/event_analyzer.py:54-91 | For every id of User32: the same, except that 41 means nothing there |
| ProviderText.KernelPowerKind | diagnostics/event_analyzer.py:54-91 | For every id of Kernel-Power: 41 is the power signal, and no other id is, not even a disk error number |
| ProviderText.BugCheckKind | diagnostics/event_analyzer.py:54-91 | Every record of the BugCheck source is a blue screen, whatever its id |
| EventTail.FreshSuffix | collectors/windows_events.py:95-101 | A suffix of the log has no record at or below both parts of the cursor exactly up to the fresh count |
| EventTail.ReadNew | collectors/windows_events.py:81-113 | The nested loops with their stop flag return exactly the fresh suffix of the log, cut to what the batches reached, in log order |
| EventTail.Prepare | collectors/windows_events.py:54-74 | The loop yields the rows to insert and both maxima of the next cursor, each reached by some record; each row carries every column of its record (`TailRuns.RowIsCopy`) |
| EventTail.Collect | collectors/windows_events.py:38-79 | The whole store after the first n of the three commits took effect |
| EventTail.ReachIff | collectors/windows_events.py:90-103 | A run gets n records out of the log exactly if some batch brings the n-th before 1000 had come |
| EventTail.SmallBacklogIsComplete | collectors/windows_events.py:90-103 | A read that never fails has every fresh record if there are at most 1000 of them |
| EventTail.TakesAtMost | collectors/windows_events.py:25-103 | One run takes at most 999 records plus one batch |
| EventTail.CompleteRunTakes | collectors/windows_events.py:81-113 | A complete run takes a record if and only if neither it nor any later record is stale |
| EventTail.NewerThanCursorIsTaken | collectors/windows_events.py:95-101 | With non-decreasing timestamps a complete run takes every record newer than the cursor's timestamp, whatever its id |
| TailRuns.SyncedFresh | collectors/windows_events.py:95-101 | In step with the log, exactly what is not stored is fresh, whatever the timestamps say |
| TailRuns.RowIsCopy | collectors/windows_events.py:57-72 | A stored row carries its record: time, source name, low 16 bits of the id, record number, message |
| TailRuns.CatchesUpIff | collectors/windows_events.py:81-113 | From a store in step with the log, a run stores the whole log if and only if it was neither capped nor failed |
| TailRuns.CompleteRunSyncs | collectors/windows_events.py:38-79 | After all three commits of a complete run the store is in step with the log again |
| TailRuns.TailRefinesRescan | collectors/windows_events.py:38-113 | In every run with no clear, crash, failed or capped read, for any batch sizes and clock, each collection leaves exactly the log's records stored, column by column, in order, once each |
| TailRuns.CrashKeepsPromise | collectors/windows_events.py:76-78 | However many of its commits take effect, a complete run leaves nothing at or below the persisted id missing, and its row commit alone stores the whole log |
| TailRuns.AtLeastOnce | collectors/windows_events.py:76-103 | After any run with crashes between commits every record at or below the persisted id is stored, and a run that reaches its row commit has stored the rest |
| TailSafety.AtMostOnce | collectors/windows_events.py:55-101 | In any run without a crash between commits, through clears, id resets, cut reads and clock jumps, no record is stored twice |
| TailSafety.CrashStoresTwiceIff | collectors/windows_events.py:76-103 | After a death between the commits and any growth of the log, the next run stores a record twice if and only if it reads past the new records, none is stale to it, and the id was not committed or the newest old record is newer than the uncommitted timestamp |
| TailSafety.CompleteRecoveryStoresTwiceIff | collectors/windows_events.py:76-103 | If the new records are fresh and the recovery complete, the uncommitted part of the cursor alone decides |
| TailSafety.CutRecoveryStoresOnce | collectors/windows_events.py:90-103 | A recovery cut short of the old records, or stopped by a stale new one, duplicates nothing |
| TailSafety.ClearedRecoveryStoresOnce | collectors/windows_events.py:76-103 | Nor does one that finds the log cleared and refilled |
| TailSafety.NewerRecordsAreStored | collectors/windows_events.py:86-113 | After a clear, an uncapped successful run stores every record strictly newer than the cursor's timestamp |
| TailSafety.SkippedIsLost | collectors/windows_events.py:90-105 | A fresh record that a capped or failing read skipped is never stored in any continuation |
| BootDetector.FinalisePrevious | diagnostics/boot_detector.py:61-87 | The previous row is finalised with the outcome of its transition, and no other row changes; what the outcome says is `SessionFlags.DetectionRecordsEvidence` |
| BootDetector.DetectBoot | diagnostics/boot_detector.py:17-93 | Same boot: the store is unchanged and the row's metadata returned; new boot: predecessor finalised, row created, row linked, or as many of these commits as it lives for |
| SessionFlags.DetectionRecordsEvidence | diagnostics/boot_detector.py:61-93 | A detection that opens a session records in the closed row, and returns: clean, power and blue screen if and only if such an event is stored between the previous boot and 120 seconds after the new one, unexpected if and only if power or 6008 evidence without a clean shutdown; and the uptime |
| SessionFlags.FlagsOverRuns | diagnostics/boot_detector.py:61-93 | After every run each finalised row holds exactly that, over the events stored when its successor was opened |
| SessionFlags.FirstBootKnowsNothing | diagnostics/boot_detector.py:26-39 | The first boot has no transition: nothing is recorded or reported of what came before |
| SessionFlags.ZeroBootIsNotFinalised | diagnostics/boot_detector.py:61-93 | A latest row with boot time zero is not finalised; the new row links to it, and nothing but its boot and id is reported |
| SessionFlags.ReuseReportsRow | diagnostics/boot_detector.py:41-59 | A restart reports each column of the latest row, absent flags as false, and the row before it as the previous session |
| SessionFlags.EventsAreOfTheirSession | agent/lifecycle.py:43-49 | Events collected at startup are stored under the session just found or opened, the latest one; those of a low cycle under the session the cycle was given |
| DetectionCrashes.DyingDetectionKeepsLooseChain | diagnostics/boot_detector.py:80-92 | However many of its commits take effect, a detection keeps numbering, spacing, finalisation and uptimes, and every existing row's identity |
| DetectionCrashes.SessionTableSurvivesCrashes | diagnostics/boot_detector.py:26-93 | The same over every sequence of startups that die wherever they may; the finalised uptimes still span first to last boot |
| DetectionCrashes.FinalisingIsRedoneIff | diagnostics/boot_detector.py:80-92 | A death after finalising is made good by the next detection if and only if that one is not taken for the previous boot |
| DetectionCrashes.UnlinkedRow | diagnostics/boot_detector.py:41-59 | A row created but not linked is reused as it is: the restart knows neither previous boot nor clean flag, while on-demand diagnosis rebuilds both |
| DetectionCrashes.UnlinkedVerdicts | diagnostics/diagnosis.py:44-66 | That restart declares an incident exactly on any evidence in the retention time; on-demand diagnosis gives the uninterrupted startup's verdict |
| SessionChain.OpenedNext | diagnostics/boot_detector.py:61-93 | Opening closes the last row and appends one that points back at it, leaving all earlier rows alone |
| SessionChain.DetectionKeepsChain | diagnostics/boot_detector.py:26-93 | One detection keeps the chain and never rewrites a finalised row; it adds a row exactly for a new boot |
| SessionChain.ChainOverRuns | diagnostics/boot_detector.py:26-93 | The chain holds after every run of the whole agent, and finalised rows are frozen |
| SessionChain.UptimesTelescope | diagnostics/boot_detector.py:78-87 | The recorded uptimes of any prefix span first boot to that boot, also in a table left by dying detections |
| SessionChain.SessionTable | diagnostics/boot_detector.py:26-93 | From an empty database: ids 1, 2, 3 and so on, each row points at the boot before it, neighbours at least a minute apart, all but the last finalised, uptimes adding up |
| Termination.InferTermination | diagnostics/hang_detector.py:27-81 | The branches produce the stated flags, confidence and gap for every combination of signals |
| EngineSpec.DetectedMeansSaw | diagnostics/event_analyzer.py:94-119 | A category is reported detected if and only if some event of the window has it |
| EngineSpec.SignalsMeanEvents | diagnostics/crash_detector.py:10-26 | Each crash signal is the presence of its event in the transition; clean is the stored flag |
| EngineSpec.IncidentIff | diagnostics/diagnosis.py:54-66 | An incident is declared if and only if there is a blue screen, or the session is not marked clean and there is power or 6008 evidence |
| Diagnosis.LastMetricTimestamp | diagnostics/diagnosis.py:341-353 | The running maximum over four tables and the heartbeat equals the specification's last activity |
| EngineSpec.LatestInIsMax | diagnostics/diagnosis.py:341-349 | The table maximum is a stored row before the bound, and no such row is later |
| EngineSpec.LastRowUnique | diagnostics/diagnosis.py:341-349 | Over the tables, a time is the last activity if and only if it is the newest activity row before the reboot |
| EngineSpec.NothingAfterLastActivity | diagnostics/diagnosis.py:341-353 | The last activity precedes the reboot and no activity row lies between the two |
| EngineSpec.LastActivityIff | diagnostics/diagnosis.py:341-353 | The last activity is the newest CPU, memory, uptime or process row or heartbeat before the reboot, and absent exactly if there is none |
| EngineSpec.InferenceTable | diagnostics/hang_detector.py:27-81 | For every combination of signals, warranted or not: the four flags, the confidence and the silence |
| EngineSpec.VerdictTable | diagnostics/hang_detector.py:40-81 | Type, confidence and gap as one table over signals and silence |
| EngineSpec.ClassificationTable | diagnostics/diagnosis.py:298-320 | BSOD if and only if a BugCheck was seen, otherwise power loss or hard hang by the silence; exact conditions for HIGH and MEDIUM; two types unreachable |
| EngineSpec.DurationIsSilence | diagnostics/diagnosis.py:71-81 | The reported duration is the silence before the reboot, or nothing when a shutdown or blue screen explains the end |
| EngineSpec.ConfidenceGrowsWithSilence | diagnostics/hang_detector.py:59-79 | For one set of signals more silence never lowers the confidence |
| Diagnosis.ConditionRules | diagnostics/diagnosis.py:103-203 | The condition rules append exactly the specified findings, in rule order |
| Diagnosis.BuildFindings | diagnostics/diagnosis.py:103-259 | The list built in place equals the stably sorted specification |
| ConditionSpec.AggregateReaches | diagnostics/diagnosis.py:356-370 | A column's aggregate reaches a threshold if and only if some row of that table in the incident window does; missing values never count |
| ConditionSpec.VerdictIsOfWindow | diagnostics/diagnosis.py:49-56 | With or without an incident, the summary and aggregates returned are those of exactly the events and rows from `beforeMinutes` before the boot to `afterMinutes` after it |
| ConditionSpec.FindingsIff | diagnostics/diagnosis.py:103-203 | An incident reports a hardware, disk, display, thermal, memory or CPU problem if and only if a stored event or row from `beforeMinutes` before the boot to `afterMinutes` after it shows it, and then with the stated severity and confidence (a hardware error is HIGH from three events on) |
| ConditionSpec.FallbackIff | diagnostics/diagnosis.py:246-256 | The rules report insufficient evidence exactly if they found nothing else, and then alone |
| EngineSpec.FindingsAreSorted | diagnostics/diagnosis.py:258-259 | Findings come most severe first |
| EngineSpec.SortingIsStable | diagnostics/diagnosis.py:258-259 | Within one severity nothing is lost, added or reordered |
| EngineSpec.SortingPermutes | diagnostics/diagnosis.py:258-259 | Sorting permutes the findings |
| EngineSpec.TerminationFindingsSurvive | diagnostics/diagnosis.py:205-244 | Of all findings, those about the termination are exactly the inference's |
| EngineSpec.FindingMatchesIncident | diagnostics/diagnosis.py:205-320 | An incident carries one termination finding agreeing with its type and confidence, except a blue screen after a clean session, which has none |
| Diagnosis.RunDiagnosis | diagnostics/diagnosis.py:40-92 | The database gains at most the one incident of the verdict, unless one is stored within five seconds; the verdict returned is the specification's |
| EngineSpec.StoredIff | diagnostics/diagnosis.py:82-100 | A diagnosis stores its incident exactly if none is stored with a reboot time within five seconds of this boot, and nothing else |
| EngineSpec.ReturnedVerdict | diagnostics/diagnosis.py:64-92 | Without an incident no finding is returned and nothing is stored; a newly stored incident is returned as stored |
| EngineSpec.BestConfidenceIsBest | diagnostics/diagnosis.py:315-320 | The fallback confidence is the highest among the findings, or LOW |
| Diagnosis.DiagnoseLatest | diagnostics/diagnosis.py:373-398 | On-demand diagnosis changes nothing and returns the verdict on the two latest rows |
| Agreement.VerdictFrame | diagnostics/diagnosis.py:40-92 | A verdict depends on events, metrics and heartbeat only, not on stored sessions or incidents |
| Agreement.FactsOfLatestRows | diagnostics/diagnosis.py:379-397 | On demand the facts are the latest row's boot, its usable link or else the boot of the row before, and that row's id and clean flag |
| Agreement.RebuiltFacts | diagnostics/diagnosis.py:379-397 | After a startup that opened a session, the two latest rows hold exactly the facts detection returned |
| Agreement.OnDemandAgreesAfterBoot | diagnostics/diagnosis.py:373-398 | Right after such a startup, on-demand diagnosis repeats the startup's verdict in full |
| Agreement.RestartFacts | diagnostics/boot_detector.py:41-59 | A restart rebuilds the same facts except the boot time it was told and a clean flag it never has |
| Agreement.RestartAgreesIff | diagnostics/boot_detector.py:52-57 | Restart and on-demand diagnosis start from the same facts if and only if the boot time is unchanged and the earlier row is not marked clean |
| Agreement.SameFactsSameVerdict | diagnostics/diagnosis.py:40-92 | The same facts, with the flag read only as clean or not, give the same verdict |
| Agreement.RestartContradictsIff | diagnostics/diagnosis.py:389-397 | With the boot time unchanged the two disagree on whether there is an incident if and only if the earlier row is clean, there is no blue screen, and there is power or 6008 evidence |
| Agreement.MarkedOnStoredEvidence | agent/lifecycle.py:43-49 | The previous session is marked clean if and only if a clean shutdown was stored before this startup collected events |
| Agreement.CleanShutdownSeenTooLate | agent/lifecycle.py:43-51 | The mark disagrees with the events then stored if and only if the clean shutdown arrives with this startup's own collection |
| IncidentRuns.IncidentsOfStep | diagnostics/diagnosis.py:82-84 | Of all steps only a diagnosing startup touches the incident table, and it appends the incident of its own boot |
| IncidentRuns.SpacedOverRuns | diagnostics/diagnosis.py:95-100 | Recorded reboot times are pairwise more than five seconds apart, in any run whatsoever |
| IncidentRuns.IncidentTable | storage/database.py:183-225 | In every run incident ids count 1, 2, 3 and so on, and a recorded incident is never changed |
| IncidentRuns.OneIncidentPerSession | diagnostics/diagnosis.py:82-100 | With restarts of one boot reporting within five seconds and successive boots a minute apart, no session gets two incidents |
| IncidentRuns.NewBootIsNeverSuppressed | diagnostics/diagnosis.py:82-100 | Under the same reports a new boot whose verdict is an incident always gets it recorded |
| Attribution.AttributionConserved | diagnostics/boot_detector.py:61-67 | Summed over all transitions, the events from the first boot to the last margin count once and exactly those in interior margins once more |
| Attribution.AttributedAtMostTwice | diagnostics/boot_detector.py:61-67 | With boots more than the margin apart an event is attributed twice exactly in an interior margin, and never three times |
| Attribution.CountedByEvent | diagnostics/boot_detector.py:96-101 | Counting by transition window and counting by event agree |
| Attribution.WindowOfRow | diagnostics/diagnosis.py:44-46 | In a chained table the engine's transition into a row runs from the boot of the row before to its own margin |
| Attribution.AttributionOverSessions | diagnostics/diagnosis.py:44-47 | Summed over the rows of any chained table, the engine's transition windows hold the events from first boot to last margin once and those in interior margins once more; none is in three |
| Attribution.BlueScreenDeclaredAgain | diagnostics/diagnosis.py:44-47 | A blue screen stamped in the margin after the previous boot is declared again, at HIGH confidence, whatever else is stored |
| Attribution.BlueScreenDeclaredTwiceIff | diagnostics/diagnosis.py:44-66 | A lone blue screen makes both neighbouring boots BSOD if and only if it is stamped in the margin after the former |
| Retention.CollectSpans | storage/retention.py:27-36 | The protected spans are those of the newest 200 incidents that have both times, and none if the list fails |
| Retention.PruneTable | storage/retention.py:40-50 | A table keeps exactly its recent and protected rows, in order, other tables are untouched, and the count is the number of rows gone |
| Retention.PruneMetrics | storage/retention.py:16-54 | Every metric table is pruned except those whose statement fails; rows deleted and rows left add up to the rows before |
| Retention.PruneKeepsIff | storage/retention.py:16-54 | A prune keeps exactly the rows within the retention hours, those between an hour before the last activity and ten minutes after the reboot of one of the newest 200 incidents that has both times, and all rows of a failed table or without retention; in order, and nothing else changes |
| Evidence.MetricsOfStep | agent/scheduler.py:46-77 | Of all steps only cycles add metric rows and only prunes remove them |
| Evidence.ProtectedSurvives | storage/retention.py:26-50 | No row inside the protected span of a listed incident is deleted |
| Evidence.EvidenceWindowSurvives | storage/retention.py:26-50 | While an incident stays among the newest 200, no interleaving of cycles and prunes removes a row of its evidence window or changes anything before its reboot |
| Evidence.WitnessOverRuns | agent/scheduler.py:46-53 | If every cycle that writes the heartbeat stores an activity row and no prune passes it, the heartbeat is always backed by a stored row |
| Evidence.ReproducibleOverRuns | diagnostics/diagnosis.py:341-353 | The recorded last activity stays the newest activity row before the reboot through every later run |
| Recomputation.LastActivityRecomputableIff | diagnostics/diagnosis.py:341-353 | Whatever follows a recorded incident, its last activity comes out again if and only if a stored activity row backed it or no later cycle writes the heartbeat |
| Recomputation.SameVerdictIff | diagnostics/hang_detector.py:40-81 | From the same signals the inference comes out again if and only if the last activity does, or the end is explained without a silence |
| Recomputation.VerdictRecomputableIff | diagnostics/diagnosis.py:49-60 | Both, for the incident a startup records and every guarded run after it |
| Recomputation.VerdictCanBeRecomputed | diagnostics/diagnosis.py:49-60 | With a backed last activity, recomputing last activity, inference and silence from the store gives the recorded values after every such run |
| Recomputation.BareBeatIsLost | agent/scheduler.py:46-53 | It fails: a cycle stores only its heartbeat, a startup records it, and the next heartbeat overwrites the only witness |
| Recomputation.WitnessingTicks | agent/scheduler.py:85-101 | A loop whose high cycles succeed and store an activity row never loses the row behind its heartbeat, if retention covers an interval and the prune's delay |
| Recomputation.LivesKeepEvidence | agent/lifecycle.py:41-95 | After any number of startups and such loops, whatever the next startup records is backed by a stored row |
| Intervals.SlotsIsQuotient | simulation/scenarios.py:104-110 | The number of instants a fixed step apart in a stretch of time is its whole quotient plus one |
| StorageBound.FilterCrowds | storage/retention.py:38-50 | Deleting rows never brings neighbours closer than they were |
| StorageBound.Packing | agent/scheduler.py:85-94 | Rows inside one span number at most its slots plus the crowded ones |
| StorageBound.PackingUnion | storage/retention.py:38-50 | The same for rows covered by several, possibly overlapping, spans |
| StorageBound.PerIncidentInFigures | storage/retention.py:33-34 | One protected incident holds at most 4200 / d + 2 rows |
| StorageBound.BudgetIsProduct | storage/retention.py:29-34 | The share of n protected incidents is n times the share of one |
| StorageBound.TidyOverRuns | agent/scheduler.py:79-103 | In every paced run the CPU table stays ascending, silent between each last activity and reboot, and crowded only by scheduler starts |
| StorageBound.StorageIsBounded | storage/retention.py:16-54 | After any paced run and a prune, the CPU table holds at most R / d + 1 rows, 4200 / d + 2 for each of at most 200 protected incidents, and one per scheduler start, where R includes the time the pruning clock is behind |
| Scheduling.Scheduler.CollectHigh | agent/scheduler.py:46-61 | Metrics, then heartbeat; a cycle that fails in between leaves its rows without a heartbeat |
| Scheduling.Scheduler.CollectSlow | agent/scheduler.py:63-70 | Event collection and slow metrics, as the machine's step |
| Scheduling.Scheduler.CollectLow | agent/scheduler.py:63-77 | The slow collection and, exactly when due, one prune; the retention mark moves with it |
| Scheduling.Scheduler.Turn | agent/scheduler.py:85-101 | One turn takes exactly the steps that are due (`Cadence` says when they are), and what a failing cycle has committed stays |
| Scheduling.Scheduler.Loop | agent/scheduler.py:79-103 | The loop's effect on the database is that of a run of the state machine, for every sequence of turns |
| Cadence.StepsAreOfTheTurn | agent/scheduler.py:85-101 | Each step of a turn works with the turn's clock reading, session, rows and batches, and a prune with the configured retention |
| Cadence.TurnOrder | agent/scheduler.py:89-101 | Within a turn the high cycle precedes the low cycle and the prune comes last |
| Cadence.HighCycleIff | agent/scheduler.py:89-94 | A turn runs a high cycle exactly if the last one is at least the collection interval ago |
| Cadence.LowCycleIff | agent/scheduler.py:96-101 | A turn runs a low cycle exactly if the last one is at least the low interval ago |
| Cadence.PruneIff | agent/scheduler.py:72-77 | A turn prunes exactly if its low cycle gets that far and the last prune is at least 300 seconds and the low interval ago |
| Cadence.RunsAreApart | agent/scheduler.py:72-101 | Low cycles are at least the low interval apart, prunes at least max(300, low interval) |
| Cadence.LowCycleSoon | agent/scheduler.py:85-101 | From any turn on, so after any appended record, a low cycle follows within the low interval and one turn |
| Cadence.NextLowCycle | agent/scheduler.py:85-101 | Successive low cycles are at most the low interval and one turn apart |
| Cadence.NextPrune | agent/scheduler.py:72-77 | When no low cycle fails, successive prunes are at most their period, one further low interval and one turn apart |
| SchedulerRuns.PacedTicks | agent/scheduler.py:85-94 | The cycles the loop performs are at least an interval apart, whatever fails and however the clock jumps |
| SchedulerRuns.LoopKeepsTidy | agent/scheduler.py:79-103 | So a scheduler started on a tidy store keeps it tidy, at the price of one start, even if the clock steps back meanwhile |
| SchedulerRuns.BeatsAreSteady | agent/scheduler.py:79-103 | Successive heartbeats of a live loop are at most max(I, H) + L + W apart |
| SchedulerRuns.StoreHoldsLastBeat | agent/scheduler.py:52-53 | After any turns the database holds the value of the loop's last heartbeat |
| SchedulerRuns.WatchdogReadsTheStore | watchdog/watchdog.py:56-61 | Once it has landed, that is what the watchdog reads |
| SchedulerRuns.StoredHeartbeatAge | agent/scheduler.py:79-103 | The stored heartbeat of a live loop is at most max(I, H) + L + W old at the start of the next turn |
| SchedulerRuns.HeartbeatAge | agent/scheduler.py:52-103 | From its first write on, the heartbeat read at any moment is at most max(I, H) + H + L + W old |
| WatchdogCheck.Watchdog.Check | watchdog/watchdog.py:55-83 | The counters, the stale flag and the recorded failure after a check, and whether it restarts |
| WatchdogCheck.LiveSchedulerIsNeverStale | watchdog/watchdog.py:55-67 | With an interval of at most 60, a one-second wait and cycles of together at most 29 seconds, no check finds a live scheduler stale: its heartbeat is at most 90 seconds old |
| RestartProtocol.ConsistentStep | agent/lifecycle.py:64-80 | Every event of any thread keeps the protocol's invariant |
| RestartProtocol.RestartsAreBounded | watchdog/watchdog.py:55-76 | Over every interleaving: restarts within the cap, each after a stale check, a backoff apart, and live threads at most one plus the joins given up |
| RestartProtocol.CheckRestartsIff | watchdog/watchdog.py:55-76 | Over every interleaving, a check restarts exactly if the heartbeat is stale, fewer restarts than the cap are logged and the last of them is a backoff ago; the log then grows by this check |
| RestartProtocol.FailureIsRecorded | watchdog/watchdog.py:61-83 | Over every interleaving a failure is on record exactly if some check found the heartbeat stale |
| RestartProtocol.NewestFailure | watchdog/watchdog.py:61-83 | The record is that of the newest stale check: its time, and one more than the restarts before it |
| RestartProtocol.RestartCompletes | agent/lifecycle.py:64-80 | A restart begun can run to its end, join given up or not, and leaves the stop flag clear and a live worker |
| RestartProtocol.AnyTwoRestartsAreApart | watchdog/watchdog.py:67-69 | Two restarts n apart in the log are at least n backoffs apart, even if the clock jumps |
| RestartProtocol.GivenUpJoinLeavesTwo | agent/lifecycle.py:75-80 | The thread bound is tight: one join given up can leave two live schedulers |
| Lifecycle.Agent.StartupAnalysis | agent/lifecycle.py:41-59 | Detect, then collect, then diagnose: one startup step of the machine, with the session id later rows are stamped with |
| Scenarios.HeartbeatStream | simulation/scenarios.py:104-110 | The loop yields every sampling instant from start to end |
| Scenarios.MetricStream | simulation/scenarios.py:92-101 | One sample of all tables at each of those instants |
| Scenarios.SampleStores | simulation/scenarios.py:80-89 | A sample stores each level in its own table, rows without one for uptime and process, and nothing else |
| Scenarios.StreamReachesEnd | simulation/scenarios.py:92-110 | A stream has an instant every 30 seconds, is never empty, and ends less than 30 seconds short of the requested end |
| Scenarios.Seed | simulation/runner.py:75-81 | Seeding leaves one session, the scenario's events, samples and last heartbeat, and nothing else |
| Scenarios.RunSimulation | simulation/runner.py:57-68 | Seeding, detecting and diagnosing compose to the specified verdict |
| ScenarioOutcomes.EvidenceOfScenario | simulation/runner.py:58-61 | The engine sees a category if and only if the scenario has such an event inside the transition |
| ScenarioOutcomes.ActivityOfScenario | simulation/scenarios.py:92-110 | The engine's last activity is the newest sample |
| ScenarioOutcomes.PowerOutcome | simulation/scenarios.py:148-233 | For every start, boot, last activity, load and interval, Kernel-Power 41 gives exactly the verdict the silence determines |
| ScenarioOutcomes.HangOrPowerLoss | simulation/scenarios.py:148-233 | A stop of at least 5 intervals is HARD_HANG / HIGH; one of at most 2 intervals less 30 seconds is POWER_LOSS / LOW |
| ScenarioOutcomes.BsodOutcome | simulation/scenarios.py:239-273 | A BugCheck is BSOD / HIGH whatever the silence |
| ScenarioOutcomes.RestartOutcome | simulation/scenarios.py:279-331 | A requested restart is no incident |
| ScenarioOutcomes.ShippedTimelines | simulation/scenarios.py:148-233 | The shipped hard hang comes out as expected exactly up to a 60-second interval, the shipped power loss exactly above 15 seconds |
| Processes.TopDominates | collectors/processes.py:40-41 | Each top list has its full length, and nothing left out exceeds anything in it |
| Processes.MergedIsUnion | collectors/processes.py:43-44 | Merging by pid keeps one row per pid met, and invents none |
| Processes.MergedKeepsLast | collectors/processes.py:43 | Of the rows with one pid, merging keeps exactly the last |
| Processes.SortIsStable | collectors/processes.py:40-41 | Processes with the same figure keep the order in which they were listed |
| Processes.CollectProcesses | collectors/processes.py:20-44 | The loop skips vanished processes, reads missing figures as zero, and reports nothing if listing fails |
| Processes.ReadableReports | collectors/processes.py:21-36 | The k-th row read is the k-th listed process that did not vanish, with its own name, path and figures, missing ones zero |
| Processes.SelectionDominates | collectors/processes.py:20-44 | For distinct pids: distinct rows, between min(10, n) and 20 of them, both top lists, and no omitted process larger than any top row |
| Figures.FiguresAreThese | diagnostics/boot_detector.py:41 | The constants are the repository's: 60, 120, 5, 1000, 10, 200, 3600, 600, 300 and 30, and 90, 5, 60 for the watchdog |

## Left out

- Message, evidence and explanation texts, finding timestamps, event levels, channels and process ids; findings keep kind, severity and confidence.
- Message clipping; the events of the simulation carry no message, which only matters for id 1001 under a provider other than BugCheck.
- The timestamp order of a window query: the model keeps table order, so lists inside a summary may be ordered differently; counts and detection do not depend on it.
- Rows SQLite rejects (a missing timestamp) and snapshot tables outside the schema, which the storage layer skips.
- Columns of metric rows other than the one the engine aggregates.
- A log record without a usable generation time (the reader then uses its own clock) and a machine without the event log API.
- Machine.Run: a startup's detection is one step of the state machine; its crashes between commits are the subject of `DetectionCrashes`, not of the other results over runs.
- Machine.Step: a prune and the collection before it are separate steps, and a batch of metric rows is committed as a whole or not at all.
- EventAnalyzer.Lower and EventAnalyzer.Strip: ASCII letters and blanks only.
- Float rounding, and the 1e-6 slack in the stream loops of the simulation.
- StorageBound.StorageIsBounded: assumes at most one CPU row per cycle, one scheduler loop at a time (each start is counted), and no cycle stamped before an earlier cycle or a recorded reboot; a loop's own cycles meet the last by themselves after its first one.
- Evidence.EvidenceWindowSurvives: for windows of at most 60 minutes before and 10 after the reboot, which is what the fixed retention margins cover.
- Recomputation.VerdictCanBeRecomputed: reuses the crash signals of the startup; recomputing them too would need the events tailed since to be set aside.
- WatchdogCheck.LiveSchedulerIsNeverStale: speaks from this run's first heartbeat on; a heartbeat left by an earlier session can trigger one restart at startup.
- RestartProtocol: stops at shutdown, where the final block of the agent races with a restart in progress; a restart callback that raises is not modelled.
- The fallback of the boot time to psutil or the clock, and the psutil, GPU, temperature and uptime collectors: foreign calls, present as arbitrary snapshots.
- The heartbeat file, the Windows service wrapper, reports, the CLI, exports, paths, logging and YAML loading.
- The option of `_boot_events` to add a user-initiated restart, which no scenario uses.
