# Verification of the monitorbeat core

A Dafny model of the parts of monitorbeat where state, time and order matter, with proofs of what
they do over every run. `dafny verify dfyconfig.toml` checks everything.

| file | models |
|---|---|
| `AlertModel.dfy`, `AlertStore.dfy`, `Evaluator.dfy`, `AlertRuns.dfy` | the alert engine: table rows, the store, one evaluator tick, and runs of ticks, acknowledgements and rule edits |
| `Strings.dfy`, `Labels.dfy`, `LabelsJson.dfy` | sorted keys, the text behind a fingerprint, the JSON of a label set |
| `JobQueue.dfy`, `RunCounts.dfy`, `Daemon.dfy`, `Reconcile.dfy`, `ReloadProtocol.dfy` | the daemon scheduler: jobs, the time-ordered queue, ticks, run counts, hot reload, and their interleavings |
| `FallbackLog.dfy` | the HTTP output: retries and the rotating fallback log |
| `Bytes.dfy`, `Sequences.dfy`, `Lines.dfy`, `Harvester.dfy`, `OffsetRegistry.dfy` | the tail reader and its offset table |
| `Ping.dfy` | the ICMP sample loop and its aggregation |
| `AgentStore.dfy` | the agent registry |
| `Options.dfy`, `Arithmetic.dfy` | optional values; products and quotients |

## How the system appears in the model

**Alert engine.** Times are integers, nanoseconds since Go's zero time; a column holds whole seconds,
because times are stored as RFC 3339 text without a fraction (section 5.6 of RFC 3339). The clock is
any reading from one second after the zero time to the end of the year 9999, and never goes back from
one event to the next. SHA-256 is an arbitrary function value, so nothing depends on it being free of
collisions. The loops over Go maps pick their next key arbitrarily; `EvaluateRule` is proved to be a
step that is stated instance by instance (`AlertModel.Next`), so no order is left in the result. A
query answers with a list of series or fails. A run (`AlertRuns.IsRun`) is any sequence of such steps
from empty tables; the theorems about runs speak of the tables and of the list of events only.

**Scheduler.** `Daemon.dfy` treats a tick and a reload each on its own, on objects updated in place.
`ReloadProtocol.dfy` takes them apart into atomic steps (a queue operation, a compare-and-swap, the
start or the advance of one job, the publication of the new state) and lets the loop and any number of
consecutive reloads interleave freely. The loop keeps the `daemonState` it captured, also across a
publication.

**Files.** A fallback file is the list of the records appended to it. The tailed file is only appended
to; appends arrive between reads, and a read returns any non-empty part of what is there.

## Where the code differs from its documentation

- The design of the alerts says notifications resume when a silence ends, and that an acknowledgement
  applies to firing instances. In the code the acknowledgement test comes first and silences always
  come with an acknowledgement, so the silence tests decide nothing (`AlertRuns.SilenceNeverDecides`)
  and an acknowledged instance stays quiet however long its silence is
  (`AlertRuns.AcknowledgedStaysQuiet`). SetAcknowledged applies to a row of any status, and an
  acknowledgement given while pending or ok silences the repeats of the next episode
  (`AlertRuns.AcknowledgedIff`, `AlertRuns.EarlyAckSilences`).
- A rule's duration means what it says exactly from 0 s to 9 223 372 036 s
  (`AlertRuns.SimpleLawIff`): a negative one still waits for a second query, a larger one wraps around.
- A fingerprint's text determines the label set only when it has at most one '='
  (`Labels.TextDeterminesIff`); within label sets whose keys have no '=' and whose values have no line
  feed it is injective.
- `fallback_max_backups` N keeps N + 1 backups (1 when N is not positive): the rotation moves `path.N`
  to `path.(N+1)` and deletes nothing. The limit holds exactly while no more than N files have been
  closed (`FallbackLog.BackupsWithinLimitIff`), and it is passed for every N
  (`FallbackLog.LimitPassed`).
- A saved offset of 0 reads as "not saved" and starts at the end of the file; together with read-ahead
  this gives the exact condition for resuming without loss (`Harvester.ResumesExactlyIff`). The
  package comment still says offsets are not persisted.

## Model

| member | source | states |
|---|---|---|
| AlertRuns.StatusFollowsQueries | web/alerts/evaluator.go:94-209 | in every run the stored status is a function of the rule's successful queries since its last edit: inactive iff absent from the latest one; otherwise firing iff the unbroken presence has lasted the duration, measured from the whole second of its first query, pending since that second if not, and firing since the first query that met the duration; for any duration |
| AlertRuns.SimpleLawIff | web/alerts/evaluator.go:130-145 | "firing iff present for d seconds" holds for every sequence of queries iff 0 <= d <= the largest time.Duration in seconds |
| AlertRuns.NotificationsSpaced | web/alerts/evaluator.go:175-184 | within a firing episode notifications j and k are more than 300 (k - j) - 1 seconds apart, truncation never accumulating; a firing instance has been notified, and its stored time is that of the latest notification |
| AlertRuns.RenotifiedIff | web/alerts/evaluator.go:160-184 | a firing instance still present is notified at a successful query iff no acknowledgement is in force and 300 s have passed since the stored time |
| AlertRuns.FiringReported | web/alerts/evaluator.go:123-240 | a successful query that contains the instance adds one history entry and one mail iff the instance enters firing, or is firing with no acknowledgement in force and 300 s gone since the stored time, and nothing otherwise; they name the rule and carry labels and value of the last series with the fingerprint, the entry at its own whole second |
| AlertRuns.AcknowledgedIff | web/alerts/store.go:319-342 | acknowledged_at is set iff some acknowledgement came once the instance had a row, whatever its status, and since then the rule was neither edited nor deleted and the instance did not recover from firing |
| AlertRuns.LatestAckStored | web/alerts/store.go:325-333 | acknowledged_at and silence_until hold the second of the latest acknowledgement in force and the second its silence was to end |
| AlertRuns.InForceWithinEpisode | web/alerts/evaluator.go:196-206 | an acknowledgement given while firing ends with that episode, so what silences a later one was given while pending or ok |
| AlertRuns.EarlyAckSilences | web/alerts/evaluator.go:155-165 | and that happens: a run, for any labels, whose acknowledgement of a pending instance is in force while it fires |
| AlertRuns.AcknowledgedStaysQuiet | web/alerts/evaluator.go:160-165 | acknowledged while firing, an instance stays firing and sends and records nothing until it is missing from a successful query or its rule is edited or deleted |
| AlertRuns.SilenceNeverDecides | web/alerts/evaluator.go:166-174 | in every reachable table a row with a silence has an acknowledgement, so the silence branches are never what decides |
| AlertRuns.ReachableRowsOk | web/alerts/store.go:299-342 | in every reachable table a pending row has only pending_since, a firing one only firing_since and a last notification, an ok one neither; columns read back; a silence implies an acknowledgement |
| AlertRuns.HistoryIsRegular | web/alerts/evaluator.go:189-208 | an instance's history reads (firing+ recovered)* firing*; firing status means it ends in firing, and conversely when the rule was never edited |
| AlertRuns.StoredRowsShowLastSeen | web/alerts/evaluator.go:126-207 | every stored row has the labels and value of the latest successful query that contained the instance, and its labels hash to the fingerprint it is stored under |
| AlertRuns.LastSeenIs | web/alerts/evaluator.go:101-113 | what was last seen is the last series with the fingerprint in the latest answer that had one |
| AlertRuns.RecoveryReportsLastSeen | web/alerts/evaluator.go:199-207 | a recovery is recorded and mailed, once, exactly when a firing instance is missing from a successful query; the entry names the rule and its own second, and entry and mail carry the labels and value last seen, under the same fingerprint |
| AlertRuns.RunCell | web/alerts/evaluator.go:94-209 | one instance's row, history and mails after a run are a fold over the events |
| AlertRuns.OtherRulesUntouched | web/alerts/store.go:116-143 | however many events of other rules happen, a rule, its rows, its history and its mails stay as they are |
| AlertRuns.PhaseFollows | web/alerts/evaluator.go:123-208 | the row machine tracks the phase the query history prescribes |
| AlertRuns.TickMovesPhase | web/alerts/evaluator.go:123-208 | one tick moves a row exactly as one sighting moves the phase |
| AlertRuns.ExpectedPhaseStep | web/alerts/evaluator.go:84-93 | the phase of a longer query history follows from the shorter one by the transition table |
| AlertRuns.DueAtLast | web/alerts/evaluator.go:145 | with times in order, an ordinary duration has been met at some query iff it is met at the last |
| AlertRuns.PresentNotifies | web/alerts/evaluator.go:220-233 | a tick that mails moves the stored time to the mail's reading, at least 300 stored seconds on while firing; a tick that does not leaves status and time |
| AlertRuns.EpisodesStaySpaced | web/alerts/evaluator.go:175-184 | stored notification times advance by 300 s or more within an episode, in every run |
| AlertRuns.PresentKeepsRow | web/alerts/evaluator.go:123-186 | a tick that sees the instance leaves a well-formed row |
| AlertRuns.ColumnReads | web/alerts/store.go:450-468 | a column written from the clock reads back as its whole second and never as the zero time |
| AlertRuns.ClockReadings | web/alerts/store.go:450-468 | the clock readings covered are those from one second after the zero time to the end of the year 9999 |
| AlertRuns.OrdinaryDuration | web/alerts/evaluator.go:145 | within the range of time.Duration the compared duration is d seconds |
| AlertModel.NextDeterministic | web/alerts/evaluator.go:101-208 | tables and every instance's history and mails after an event do not depend on any iteration order |
| AlertModel.ApplyDeltaCell | web/alerts/store.go:299-369 | changing one instance leaves every other instance, of any rule, alone |
| AlertModel.PresentDeltaConcerns | web/alerts/evaluator.go:126-185 | what a tick writes for an instance is filed under that instance, and the stored labels hash to its fingerprint |
| AlertModel.AbsentDeltaConcerns | web/alerts/evaluator.go:194-207 | the recovered entry, filed under the recomputed fingerprint, belongs to the same instance |
| AlertModel.CurrentKeyed | web/alerts/evaluator.go:101-113 | every current instance is filed under the fingerprint of its own labels |
| AlertModel.CurrentIsLast | web/alerts/evaluator.go:101-113 | of the series with one fingerprint the last one counts, with its own labels (none when nil) and its own value |
| AlertModel.CurrentMeansSeries | web/alerts/evaluator.go:101-113 | an instance is present iff some series of the answer has its fingerprint |
| AlertModel.CalendarLimits | web/alerts/store.go:450-468 | a column reads as its second times 10^9 ns exactly from the start of the year 0 to the end of the year 9999, and counts as set unless it is the zero time |
| AlertModel.SubSaturates | web/alerts/evaluator.go:145 | time differences are exact within 64 bits and stop at the ends |
| AlertModel.DurationWraps | web/alerts/evaluator.go:145 | the compared duration is the 64-bit number congruent to d times 10^9 modulo 2^64 |
| AlertStore.Store.CreateRule | web/alerts/store.go:97-112 | fails, changing nothing, iff the name is in use; otherwise adds the rule under a fresh id |
| AlertStore.Store.UpdateRule | web/alerts/store.go:116-133 | replaces the rule and drops exactly its state rows; on a name clash changes nothing; a missing rule is reported after its state rows are gone; history stays |
| AlertStore.Store.DeleteRule | web/alerts/store.go:136-143 | removes the rule, its rows and its history, and nothing else |
| AlertStore.Store.GetEnabledRules | web/alerts/store.go:196-222 | returns exactly the enabled rules, in order of their ids |
| AlertStore.Store.GetActiveStatesForRule | web/alerts/store.go:264-296 | returns exactly the rule's pending and firing rows, once each, as read |
| AlertStore.Store.UpsertState | web/alerts/store.go:299-321 | replaces labels, status, value and the two since columns of one row and keeps its other columns |
| AlertStore.Store.SetAcknowledged | web/alerts/store.go:325-333 | sets acknowledgement and silence of an existing row of any status |
| AlertStore.Store.ClearAck | web/alerts/store.go:336-342 | clears acknowledgement and silence of an existing row |
| AlertStore.Store.SetLastNotified | web/alerts/store.go:345-352 | stores the whole second of the notification in an existing row |
| AlertStore.Store.AddHistory | web/alerts/store.go:359-370 | appends exactly one entry |
| AlertStore.AcknowledgeStep | web/alerts/store.go:325-333 | what SetAcknowledged does is the Acknowledge step of a run |
| AlertStore.CreateStep | web/alerts/store.go:97-112 | what CreateRule does is the CreateRule step of a run |
| AlertStore.EditStep | web/alerts/store.go:116-133 | what UpdateRule does is the EditRule step of a run |
| AlertStore.DeleteStep | web/alerts/store.go:136-143 | what DeleteRule does is the DeleteRule step of a run |
| Evaluator.Evaluator.EvaluateRule | web/alerts/evaluator.go:94-209 | one evaluation, with map and row loops in any order, is the pointwise Tick step over current and stored instances; a failed query changes nothing; stored labels keep hashing to their keys |
| Evaluator.Evaluator.Evaluate | web/alerts/evaluator.go:65-74 | one turn of the loop is a stretch of a run that ticks every enabled rule once, in order of the ids |
| Evaluator.Evaluator.ReconcileAll | web/alerts/evaluator.go:123-186 | the first loop takes exactly the present instances through their step |
| Evaluator.Evaluator.ResolveAll | web/alerts/evaluator.go:189-208 | the second loop resolves exactly the active rows that are absent |
| Evaluator.Evaluator.Reconcile | web/alerts/evaluator.go:125-185 | the case split on the stored row is the instance's present step |
| Evaluator.Evaluator.RefreshPending | web/alerts/evaluator.go:140-154 | a pending row fires when its duration is over and is refreshed otherwise |
| Evaluator.Evaluator.RefreshFiring | web/alerts/evaluator.go:155-185 | a firing row is refreshed, and notified only past acknowledgement, silence and rate limit |
| Evaluator.Evaluator.Resolve | web/alerts/evaluator.go:194-207 | a pending row becomes ok silently, a firing one with its acknowledgement cleared and its recovery announced |
| Evaluator.Evaluator.Fire | web/alerts/evaluator.go:220-239 | one firing history entry, the stored notification time, one mail |
| Evaluator.Evaluator.Recover | web/alerts/evaluator.go:241-257 | one recovered entry under the fingerprint of the given labels, one mail |
| Evaluator.CurrentInstances | web/alerts/evaluator.go:101-113 | instances by fingerprint, a later series replacing an earlier one, nil labels as empty |
| Evaluator.FindState | web/alerts/evaluator.go:211-218 | returns a state with that fingerprint iff there is one |
| Labels.Fingerprint | web/alerts/fingerprint.go:20-34 | hashes a text that is a function of the label map, whatever order the keys were collected in |
| Labels.CanonicalText | web/alerts/fingerprint.go:24-36 | the text is the entry of the least key, then the text of the other labels |
| Labels.SingletonText | web/alerts/fingerprint.go:30-35 | one label reads key, equals sign, value, line feed |
| Labels.CanonicalInjective | web/alerts/fingerprint.go:20-33 | label sets whose keys have no '=' and values no line feed have the same text only if they are equal |
| Labels.TextDeterminesIff | web/alerts/fingerprint.go:20-33 | a text belongs to one label set only iff that set is empty or is one label without '=' |
| Labels.EmptyTextIsReserved | web/alerts/fingerprint.go:20-33 | "{}" is the text of the empty set only |
| Labels.OtherTextsCollide | web/alerts/fingerprint.go:26-32 | every other label set shares its text with a different one |
| Strings.SortStrings | web/alerts/fingerprint.go:24-28 | sorting a listing of a set gives the set's one sorted listing |
| Strings.LessMeans | web/alerts/fingerprint.go:28 | a key sorts before another iff it ends, or has the smaller character, at their first difference |
| Strings.LeastComesFirst | web/alerts/fingerprint.go:24-28 | a sorted listing is the least key and then the listing of the rest |
| Strings.SortedListingUnique | web/alerts/store.go:488-492 | a set has only one strictly sorted listing |
| LabelsJson.LabelsRoundTrip | web/alerts/store.go:484-516 | decodeLabels(encodeLabels(m)) = m for every map over Unicode strings, with all of Go's escapes |
| LabelsJson.EncodedInjective | web/alerts/store.go:481-507 | the stored text determines the label set |
| LabelsJson.EncodedPlain | web/alerts/store.go:499-503 | the stored text never holds a raw control character, '<', '>', '&', U+2028 or U+2029, whatever the labels contain |
| LabelsJson.EncodedText | web/alerts/store.go:499-503 | the stored text is the member of the least key, a comma, and the members of the rest |
| LabelsJson.EncodedOne | web/alerts/store.go:499-503 | one label is stored as one quoted member in braces |
| LabelsJson.EscapeTable | web/alerts/store.go:499-503 | each character is written as Go writes it: seven two-character escapes, lower-case hexadecimal for the other control characters and for <, >, &, U+2028 and U+2029, all else as it is |
| LabelsJson.EscapeAllConcat | web/alerts/store.go:499-503 | a text is escaped character by character |
| LabelsJson.EncodeLabels | web/alerts/store.go:484-507 | the printed text is a function of the map, not of its iteration order |
| LabelsJson.EscapeParses | web/alerts/store.go:499-500 | reading undoes printing for every character, escaped or not |
| LabelsJson.SurrogatesRead | web/alerts/store.go:509-516 | two surrogate escapes read as one character, a lone one as U+FFFD |
| LabelsJson.SpaceSkipped | web/alerts/store.go:509-516 | white space before a stored object makes no difference |
| LabelsJson.QuoteParses | web/alerts/store.go:499-514 | a printed string literal reads back, with the rest of the text untouched |
| LabelsJson.MembersParse | web/alerts/store.go:495-514 | a printed member list reads back as its labels added to what was read before |
| JobQueue.LockQueue.Push | scheduler/daemon/queue.go:27-34 | the queue and the new jobs, in time order |
| JobQueue.LockQueue.PopUntil | scheduler/daemon/queue.go:80-96 | takes the longest due prefix, on any queue; on a sorted queue exactly the due jobs, leaving the rest sorted |
| JobQueue.LockQueue.PopAll | scheduler/daemon/queue.go:67-77 | hands over the whole queue in order |
| JobQueue.LockQueue.Pop | scheduler/daemon/queue.go:55-64 | takes the first job, if any |
| JobQueue.LockQueue.First | scheduler/daemon/queue.go:37-45 | shows the first job, if any |
| JobQueue.IntervalJob.Next | scheduler/daemon/job.go:55-58 | moves the check time on by the configured period if that is positive, and by 10 s otherwise |
| JobQueue.IntervalJob.constructor | scheduler/daemon/job.go:34-52 | a new job is due at once |
| RunCounts.ExactRunCount | scheduler/daemon/scheduler.go:162-181 | for any tick times the number of runs is the least, over all ticks, of the check times elapsed by then plus one per later tick |
| RunCounts.NoDrift | scheduler/daemon/job.go:50-58 | the check time is always the start plus runs times the period |
| RunCounts.RunRecurrence | scheduler/daemon/scheduler.go:162-181 | one run per tick at most, and never more runs than elapsed check times |
| RunCounts.CaughtUpIff | scheduler/daemon/scheduler.go:162-181 | a job has run every elapsed check time after each tick iff no tick passes two of them |
| RunCounts.RegularTicksKeepUp | scheduler/daemon/scheduler.go:162-181 | first tick within a period, later ones at most a period apart: runs = floor((t - start) / period) + 1 |
| Daemon.Daemon.Tick | scheduler/daemon/scheduler.go:157-182 | with the flag free every due job runs once and moves on one period, the others are untouched, the queue holds the same jobs in order; with the flag taken nothing changes |
| Daemon.Daemon.TickAll | scheduler/daemon/scheduler.go:153-182 | over ticks at any non-decreasing times each queued job gets exactly the run count of ExactRunCount, its check time is the start plus runs times the period, and no job enters or leaves the queue |
| Daemon.Daemon.RunAndAdvance | scheduler/daemon/scheduler.go:168-180 | each due job is run once and moved on by its period |
| Daemon.Daemon.Reload | scheduler/daemon/scheduler.go:190-233 | afterwards one job per ident of the new list, with the last listed task of that ident; the earliest old job of each wanted ident goes on with its check time, all others are stopped once; queue sorted |
| Daemon.Sift | scheduler/daemon/scheduler.go:213-222 | the critical section keeps the first job of each wanted ident, stops the others, and leaves the idents without a job |
| Daemon.Daemon.MakeJobs | scheduler/daemon/scheduler.go:225-228 | one new job, due at once, for every remaining task |
| Daemon.Daemon.Start | scheduler/daemon/scheduler.go:99-114 | the daemon is running and has one job, due at once, for every registered task |
| Daemon.Daemon.Add | scheduler/daemon/scheduler.go:64-72 | registers the task and queues one job for it iff the daemon is running |
| Daemon.ReloadJobFromTask | scheduler/daemon/scheduler.go:91-97 | the job takes both configurations |
| Daemon.BuildTaskMap | scheduler/daemon/scheduler.go:202-207 | every listed ident, each with the last listed task that has it |
| Daemon.SwapDone | scheduler/daemon/scheduler.go:212-228 | what the critical section and the new jobs leave is one job per ident, with every old job settled |
| Reconcile.FirstWithIdent | scheduler/daemon/scheduler.go:213-218 | every wanted ident an old job had is kept by exactly its first job in queue order |
| ReloadProtocol.NoJobLostOrDuplicated | scheduler/daemon/scheduler.go:157-233 | in every state of every interleaving each job ever created is in exactly one place, once; retired queues are empty; the loop never carries jobs that Reload works on |
| ReloadProtocol.ReloadFinishes | scheduler/daemon/scheduler.go:209-232 | at publication every job is in the new queue once or was stopped once, the queue is sorted with one job per ident, and of the jobs the old queue held when this reload took it, the earliest of each wanted ident goes on with its check time of that moment and the others are stopped, whatever state the loop still holds |
| ReloadProtocol.OneMovePerRun | scheduler/daemon/scheduler.go:168-180 | under every interleaving a job is moved on exactly once for each time it is run |
| ReloadProtocol.CheckTimeIsSum | scheduler/daemon/scheduler.go:157-233 | under every interleaving a job's check time is its earlier one plus the periods it has been moved on by since |
| ReloadProtocol.NoDriftAcrossReloads | scheduler/daemon/job.go:50-58 | with one period throughout, a job's check time is its creation time plus its runs times the period, however many reloads interleave |
| ReloadProtocol.RunWasDue | scheduler/daemon/scheduler.go:157-173 | under every interleaving a job that is run is due at the tick the loop is working on |
| ReloadProtocol.NothingDueStays | scheduler/daemon/scheduler.go:162 | and no job that is due at that tick stays in the queue the loop captured |
| ReloadProtocol.NoDeadlock | scheduler/daemon/scheduler.go:157-212 | in every state of every interleaving the loop can take a step, and Reload can unless the loop holds the flag it waits for |
| ReloadProtocol.StartState | scheduler/daemon/scheduler.go:99-114 | runs start with any number of jobs of any idents and check times |
| ReloadProtocol.StepKeepsInv | scheduler/daemon/scheduler.go:157-232 | every step of the loop or of Reload keeps flag discipline, conservation, time order and Reload's progress |
| ReloadProtocol.LoopConserves | scheduler/daemon/scheduler.go:157-182 | no step of the loop loses or duplicates a job |
| ReloadProtocol.ReloadConserves | scheduler/daemon/scheduler.go:209-231 | no step of Reload loses or duplicates a job |
| ReloadProtocol.ReloadKeepsProgress | scheduler/daemon/scheduler.go:213-228 | the new queue always has one job for each ident dealt with, and each old job looked at is kept or stopped |
| FallbackLog.BoundedLog | internal/output/http.go:311-363 | once records have been appended the files read back as an exact suffix of everything appended; backups are numbered without gaps, each new one closed just as it reached the limit, and the current file is below it |
| FallbackLog.BackupsWithinLimitIff | internal/output/http.go:349-360 | there are at most fallback_max_backups backups iff no more files than that have been closed; after that there is always one too many |
| FallbackLog.LimitPassed | internal/output/http.go:344-363 | for every limit N, N + 1 records that fill a file each leave N + 1 backups |
| FallbackLog.DiskIsSuffix | internal/output/http.go:344-363 | reading path.(N+1) down to path.1 and then path gives a suffix cut between records, and everything while no more than N+1 files were closed |
| FallbackLog.SegmentsComplete | internal/output/http.go:328-341 | the unbounded log spells out every record appended, in order |
| FallbackLog.SegmentSizes | internal/output/http.go:332-340 | a closed segment has at least the limit, less without its last record; the open one stays below |
| FallbackLog.NoLimitNeverCloses | internal/output/http.go:333 | without a size limit the file is never rotated |
| FallbackLog.HTTPOutput.Publish | internal/output/http.go:64-79 | sent iff some attempt within the retry limit has a status from 200 to 299 and no cancellation came before it; otherwise the record is appended, or an error returned when there is no fallback; never both, and failures change nothing |
| FallbackLog.HTTPOutput.PublishAll | internal/output/http.go:64-79 | for any sequence of events and server answers, each is sent iff answered 2xx, and the files read back as an exact suffix of what they held followed by the records of the saved events, with every new backup just full and the current file below the limit |
| FallbackLog.HTTPOutput.TrySend | internal/output/http.go:94-137 | succeeds iff some attempt within the retry limit is 2xx, with none accepted before and no cancellation while backing off |
| FallbackLog.HTTPOutput.WriteFallback | internal/output/http.go:311-342 | refines the append of the unbounded log; the current file is below the limit afterwards |
| FallbackLog.HTTPOutput.RotateFallback | internal/output/http.go:344-363 | every backup moves up by one and path becomes path.1; files beyond path.(N+1) are untouched |
| FallbackLog.HTTPOutput.Rename | internal/output/http.go:353 | replaces a file only where the rotation may: at path.(N+1) |
| FallbackLog.HTTPOutput.Close | internal/output/http.go:365-375 | closes for good and changes no file |
| Harvester.DeliveredLines | internal/input/file/harvester.go:145-193 | delivered lines put together are the file's bytes without newlines; they are the plain split iff no end of file was met inside a line that went on; the offset equals start plus bytes delivered iff nothing is read ahead |
| Harvester.ResumesExactlyIff | internal/input/file/harvester.go:74-90 | the exact condition under which the saved offset is where the deliveries ended |
| Harvester.Reopen | internal/input/file/harvester.go:60-110 | a reader closed and opened again starts exactly where deliveries ended iff nothing was read ahead and the offset is not 0 (or the file is still empty), and then carries on without loss or repetition |
| Harvester.Tail | internal/input/file/harvester.go:60-143 | a reader from the beginning has delivered exactly the file whenever it is caught up; one from a saved offset, or from the end, exactly the file from there on |
| Harvester.SessionsJoin | internal/input/file/harvester.go:76-110 | the deliveries of two sessions that join exactly are the bytes from the first start on |
| Harvester.Harvester.ReadString | internal/input/file/harvester.go:147 | a whole line or what there was before the end of the file; delivered, returned and buffered bytes stay the file's, for any chunking |
| Harvester.Harvester.ReadOne | internal/input/file/harvester.go:146-156 | delivers one whole line, or at the end of the file at most one open rest, and nothing is lost; at the end of the file everything has been delivered |
| Harvester.Harvester.WaitMore | internal/input/file/harvester.go:160-193 | rebuilding the reader at the end of the file drops nothing |
| Harvester.Harvester.Loop | internal/input/file/harvester.go:125-143 | the reading loop keeps all of this for any number of rounds, and after the last whole line read the offset was saved less than 5 s ago |
| Harvester.Harvester.constructor | internal/input/file/harvester.go:60-110 | starts at 0, at a positive saved offset, or at the end of the file, with the configured buffer (64 KiB by default, 16 bytes at least) |
| Harvester.Harvester.MaybeSaveOffset | internal/input/file/harvester.go:215-224 | saves the tracked offset, at most every 5 s, for this file only |
| Harvester.Harvester.Close | internal/input/file/harvester.go:241-255 | saves the tracked offset for this file only |
| Lines.LinesAreSplitIff | internal/input/file/harvester.go:146-156 | the delivered lines are the split of their bytes iff every piece but the last ends a line |
| Lines.SplitMeans | internal/input/file/harvester.go:146-156 | the plain split gives the text before each byte 10, and a rest if there is one |
| Lines.DeliveredBytes | internal/input/file/harvester.go:148-152 | stripping newlines loses newlines only |
| Lines.NewlineIsTen | internal/input/file/harvester.go:149 | exactly the bytes 10 are dropped |
| OffsetRegistry.SaveLoadRoundTrip | internal/input/file/registry.go:68-102 | loading the saved entries, in any order, gives the same table |
| OffsetRegistry.KeyInjective | internal/input/file/registry.go:45-47 | "path:decimal-inode" is injective, also for paths with colons |
| OffsetRegistry.LookupMeans | internal/input/file/registry.go:49-58 | the stored offset of that path and inode, and 0 when there is none |
| OffsetRegistry.KeyText | internal/input/file/registry.go:45-47 | path, colon, decimal inode without leading zeros |
| OffsetRegistry.LoadedIsLast | internal/input/file/registry.go:88-102 | of several entries for one path and inode the last counts |
| OffsetRegistry.OffsetRegistry.Set | internal/input/file/registry.go:61-65 | the pair has the offset, every other pair is as before |
| OffsetRegistry.OffsetRegistry.Save | internal/input/file/registry.go:68-86 | lists every entry once; loading the list gives the table |
| OffsetRegistry.OffsetRegistry.Load | internal/input/file/registry.go:88-102 | adds the entries under their keys, the later one winning |
| Ping.RunICMPBackend | tasks/ping/icmp.go:57-146 | fails with its error when the target does not resolve or there is no socket; otherwise packets_received is the number of probes attempted and answered, minimum and maximum are round-trip times of such probes and bound all of them, success iff one was answered |
| Ping.CollectSamples | tasks/ping/icmp.go:83-135 | on every way out each slot is its probe's time, or -1 if it was not attempted or not answered |
| Ping.AttemptedIff | tasks/ping/icmp.go:83-135 | a probe is attempted iff the context lives at the top of its turn and of every earlier one and in every pause before it |
| Ping.AggregateResults | tasks/ping/result.go:27-71 | counts, rates, true minimum and maximum of the received samples, and a truncated mean between them |
| Ping.ReceivedCountsReplies | tasks/ping/icmp.go:85-123 | the received samples are as many as the answered probes |
| Ping.MeanBetween | tasks/ping/result.go:67-69 | the truncated mean lies between minimum and maximum |
| AgentStore.CleaningUnobservable | web/registry/store.go:44-106 | over any run of heartbeats and clean-ups the online listing is that of a store that never deletes |
| AgentStore.KeepingForgetsNothing | web/registry/store.go:44-63 | the never-deleting store has every agent as of its last heartbeat |
| AgentStore.Store.PerformAll | web/registry/store.go:44-106 | any sequence of heartbeats and clean-ups leaves what the run says |
| AgentStore.CleanListsOnline | web/registry/store.go:102-106 | right after a clean-up the full listing is the online listing |
| AgentStore.ListingMeans | web/registry/store.go:67-99 | a listing gives every known (or every online) agent once, with its stored data, in host name order, online iff heard from at most TTL ago |
| AgentStore.Store.ListAgents | web/registry/store.go:67-99 | the agents in host name order, all or only those within the TTL, each with its online flag |
| AgentStore.Store.Heartbeat | web/registry/store.go:44-63 | replaces or adds one agent |
| AgentStore.Store.CleanStale | web/registry/store.go:102-106 | keeps exactly the agents heard from within the TTL, unchanged |

## Left out

- Rule edits or acknowledgements in the middle of a tick, failing store statements, a missing mail sender, logging.
- ListRules, ListHistory and the HTTP handlers: they only read or pass on.
- Label texts with values that are not strings: encodeLabels never writes them, and decodeLabels then leaves out members.
- Concurrent reloads, Add during a reload, overlapping runs of one job: the code gives no guarantee there.
- Task objects: a job holds its task as a value, so two jobs sharing one task object are not captured.
- Job contexts, panics, Wait and the stopping of the scheduler loop.
- Event formatting for the HTTP output, back-off times, failing or partial file operations.
- Harvester.Harvester.ReadString: returns only when the appends pause, because a line that grows faster than it is read has no end.
- gb18030, fsnotify, back-pressure of the line channel, and truncated or renamed files in the tail reader.
- OffsetRegistry.OffsetRegistry.Save: the JSON text and the temporary file are not modelled; the file is its list of entries.
- Sockets, packet building and parsing, and reply matching in the ping task.
- AgentStore.Store.Heartbeat: the task list is kept as it is, without its JSON text.
- Rounding of floating-point figures: reported values are exact fractions.
- Label texts that encodeLabels did not write: no stored row holds one (`AlertRuns.StoredRowsShowLastSeen`).
- All other collectors, schedulers, inputs and outputs, the web interface and deployment.
