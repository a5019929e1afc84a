# Uptime monitor: verified model

This project models the logic of an uptime monitor and proves properties of it with Dafny. The
monitor probes endpoints on a schedule, stores each result, counts failures per alert
configuration, queues down and recovery alerts, publishes changes of health to dashboards, and
derives incident lists and overdue flags from the stored rows. Two dispatchers share the work: a
Python one that claims everything that is due, and a Java one that claims bounded batches and
probes them on a bounded thread pool.

`dafny verify dfyconfig.toml` checks the whole project.

## What is proved

* **Alerts agree with incidents.** In any run of the modelled events, for a configuration that stays
  active with a constant threshold and has no down notice given up on, on an endpoint whose rows all
  come from checks committed in order: the alerts queued by committed checks are exactly those that
  the gaps-and-islands SQL query accounts for. Checks queue alerts before they commit, so an attempt
  that fails can leave alerts behind (README.md:352-354 names this as open); everything queued
  agrees with the query if and only if no failed attempt had queued such an alert
  (`Agreement.OnlineAgreesWithOffline`). Underneath: the query with its NULL logic, row-based `lag`
  and RANGE frame equals the list of maximal runs of failures, with the exact condition on tied
  timestamps, and the alert loop is a refinement of one small state machine per configuration.
* **The alert ledger.** Over every interleaving of committed and aborted checks, rows stored by the
  other dispatcher, delivery failures, edits and deletions: each down alert of a committed check was
  answered by a recovery, written off by a delivery failure, or is the one that `alert_sent` stands
  for. Alerts of aborted attempts are the only others in the broker (`AlertRuns.BrokerLedger`).
* **Silence means unchanged.** A dashboard row that has learnt of the newest change, by its message
  or by a snapshot taken since, shows the health of the latest database row, whatever else it
  received or missed and in whatever order, if and only if that change falls into a later
  millisecond than the check before it.
* **Claims.** Any number of claimers that lock first and update at commit never take a slot twice;
  an endpoint's claim rate is bounded over every span; a batched claim reaches a waiting endpoint
  within floor(A/B)+1 ticks.
* **Overdue.** No false alarm while the stated timing bounds hold, and no way for claims to hide a
  lost task.
* **Purge.** The batched delete loop leaves exactly the rows within retention, and no incident
  list, summary, overdue flag or overdue count can ever tell that it ran, if and only if retention
  is at least seven days and at least a day plus the grace period.
* **Rate limiter and thread pool.** The exact condition, on key expiry, for a window to keep its
  limit; twice the limit per window length; Retry-After; conservation of submitted tasks and a tight
  rejection bound.

## Layout

| file | subject |
|---|---|
| Common, Sql | clock, nullable values, rows and their orders, three-valued logic |
| Incidents | the incident query and the summary counts |
| AlertMachine, Checks, AlertRuns, Agreement | one configuration; one check as the code runs it; whole runs; online against offline |
| Publishing, Dashboard, Silence | announcements, merging in the browser, end to end |
| Endpoints, Claims, Waiting, Overdue | the endpoint table, concurrent claimers, bounded waiting, the overdue flag |
| TableSteps | the steps of those models as calls of the endpoint table |
| Purge, RateLimit, ProbePool | retention, the Redis limiter, the Java tick |

Timestamps are integers in microseconds, the resolution of a Postgres timestamp. Where the code
does not decide something (the order of tied rows, which rows a `LIMIT` without order picks, whether
a commit or a publish succeeds, when a worker runs), the model takes it as a parameter or a
nondeterministic choice, so the results hold for every outcome.

## Where code and documentation differ

The model follows the code.

* `purge_old_results` ignores its `batch_size` argument and always binds the configured size
  (app/dispatcher.py:173, 184). The model ignores it too and covers every configured size; size
  zero deletes nothing.
* README.md:151-152 says that `monitoring_since` restarts on creation, reactivation and a changed
  interval. The code also restarts it on a changed URL (app/db.py:32, 97-103).
* The alert threshold has no lower bound (app/models.py:128, 151). Zero and negative thresholds
  behave like one; every result holds for every integer.
* The dashboard compares browser `Date` values, which have milliseconds, while the server's
  timestamps have microseconds. The law that silence means no change therefore has a condition,
  and `Silence.SilenceMeansUnchanged` shows that the condition is exact.
* README.md:84 says that a dropped dashboard update corrects itself because the next check publishes
  again. The code publishes only on a change of health (app/dispatcher.py:122), so the next check
  of the same health publishes nothing (`Publishing.LostIsNotRepeated`); the next snapshot repairs
  the row (`Silence.SnapshotRepairs`).
* A claim of 60 fits the default pool of 20 threads and 40 queue places only while the threads do
  not exist yet; `ProbePool.DefaultSizes` shows both cases.

## Model

| member | source | states |
|---|---|---|
| Common.StrictOrderIsUnique | app/db.py:174-183 | ORDER BY checked_at leaves the database no choice when timestamps are distinct |
| Common.OrderExists | app/db.py:174-183 | every table has an order that ORDER BY checked_at permits, so the results about all such orders are never vacuous |
| Common.LatestExists | app/db.py:22-28 | ORDER BY checked_at DESC LIMIT 1 finds a row with the greatest timestamp, or none in an empty table |
| Incidents.IsUpExprIsUp | app/db.py:176-177 | the forced boolean, its negation and the nullable BETWEEN all agree with the dispatcher's notion of health, NULL included |
| Incidents.RunIdStep | app/db.py:182-189 | when tied rows agree in health, the running count steps up exactly where health changes, although its frame is RANGE and lag is NULL on the first row |
| Incidents.DownRunsAreMaximal | app/db.py:172-196 | the reference scan finds every maximal run of failed checks, nothing else, oldest first |
| Incidents.RunsDiffer | app/db.py:182-189 | with harmless ties, failures with a success between them differ in run_id |
| Incidents.GroupsMatchRuns | app/db.py:182-196 | the groups of the hash aggregation are, one by one, the maximal runs: same start, end and length, whenever run_id tells the runs apart |
| Incidents.QueryReversesGroups | app/db.py:190-197 | in every row order, ties included, the groups have disjoint time ranges and the result lists them newest first |
| Incidents.OrdersAgree | app/db.py:174-183 | two scan orders of rows whose ties agree in health show the same timestamps and health at every position |
| Incidents.QueryListsMaximalRuns | app/db.py:172-208 | main result: if tied rows agree in health (in particular if timestamps are distinct), the query returns exactly the maximal runs of failures, newest first, with start, end, truncated duration and count, in every scan order |
| Incidents.QueryIsRunsExactly | app/db.py:172-208 | the exact condition for every scan order: the query lists the maximal runs if and only if, wherever the success that ends a run is tied with its last failure, all of the run and no later failure lies at that timestamp |
| Incidents.GroupByCovers | app/db.py:190-195 | every failed check is counted in a group with its run_id whose time range contains it |
| Incidents.IncidentsPartitionFailures | app/db.py:174-197 | for every order of tied rows: incidents have disjoint time ranges and each failed check lies in exactly one |
| Incidents.TieSplitsRun | app/db.py:183-189 | an order that fails the condition: a success tied with the second of two failures splits their run into two incidents |
| Incidents.AnalyticsAddUp | app/db.py:155-196 | up_checks plus the checks of all incidents equals total_checks on every table |
| Incidents.OutageFitsWindow | app/db.py:189-205 | with no future rows the truncated durations sum to at most 604800 seconds |
| AlertMachine.Ledger | app/dispatcher.py:149-159 | downs = recoveries + effective resets + 1 if alert_sent, after every sequence of checks, threshold changes and delivery failures |
| AlertMachine.RecoveriesFollowDowns | app/dispatcher.py:149-159 | every recovery directly follows a down notice, so no two recoveries lack a down between them |
| AlertMachine.StreakMeaning | app/dispatcher.py:149-159 | the streak counts failures since the last success, alert_sent implies a streak, and after a failure the flag is set or the streak is below the threshold |
| AlertMachine.NoticesAreOwed | app/dispatcher.py:149-159 | the exact notice log: for each maximal run that reaches the threshold one down at the check that reached it and one recovery at the check that ended it, for every integer threshold |
| Checks.Monitor.QueueAlert | app/dispatcher.py:20-32 | one task with the configuration's channel and target and the check's timestamp reaches the broker |
| Checks.VisitAllAddressed | app/dispatcher.py:140-161 | every alert of a pass goes to the channel and target of an active configuration of the checked endpoint and carries that check's endpoint, URL, timestamp and health |
| Checks.Monitor.PerformCheck | app/dispatcher.py:109-170 | one attempt: on commit one row with the probe's result, one machine step per active configuration, and one message to the owner if health changed; on failure nothing but the alerts queued before it; alerts go to the configured channel and target |
| Checks.Monitor.PerformCheckTask | app/dispatcher.py:68-74 | up to three retries after operational errors, each probing anew, with the effect of Task |
| Checks.Monitor.MarkAlertUndelivered | app/alerts.py:103-110 | clears the flag of one configuration and keeps its streak, its last alert time and all other states |
| Checks.Monitor.HandleAlertExhausted | app/alerts.py:113-123 | a lost down notice resets the flag, a lost recovery changes nothing |
| Checks.Monitor.AddAlert | app/db.py:116-129 | a new configuration comes with a fresh state row; an integrity error leaves neither |
| Checks.Monitor.UpdateAlert | app/db.py:135-149 | exactly the fields that were sent change, streak and flag do not; a missing configuration is not found |
| Checks.Monitor.DeleteAlert | app/db.py:151-153 | a configuration is deleted with its state row |
| Checks.Monitor.InsertResult | dispatcher-java/src/main/java/com/uptime/dispatcher/EndpointRepository.java:97-130 | the other dispatcher stores a row with its endpoint, time and status code and nothing else, or nothing if the insert fails |
| AlertRuns.VisitAllEffect | app/dispatcher.py:140-161 | one pass over the alert rows, in any order, steps each listed configuration's machine once and no other |
| AlertRuns.RunRefines | app/dispatcher.py:109-163 | main result: in every run each configuration's streak, flag and the alerts of committed checks are those of its own machine on what it observed |
| AlertRuns.RunLedger | app/dispatcher.py:140-161 | the ledger and the alternation of notices over the alerts of committed checks, in every reachable state, also when a delivery failure arrives after a recovery and a new outage |
| AlertRuns.BrokerLedger | app/dispatcher.py:149-163 | the same ledger over everything the broker received: alerts of aborted attempts are the only difference |
| AlertRuns.RunStreak | app/dispatcher.py:143-161 | the meaning of streak and flag in every reachable state, despite missing state rows, pauses and edits |
| AlertRuns.Isolation | app/dispatcher.py:133-147 | an event that is not about a configuration leaves its row, its state and its alerts alone |
| AlertRuns.AbortKeepsDatabase | app/dispatcher.py:109-163 | a failed attempt leaves tables and channel untouched but may leave alerts queued |
| AlertRuns.BrokerSplits | app/dispatcher.py:149-163 | the broker holds exactly the alerts of committed attempts and those of aborted ones, with multiplicity |
| AlertRuns.AbortQueues | app/dispatcher.py:140-163 | a failed attempt has queued a notice for a configuration exactly when it visited it before the failure and its machine had one to queue |
| AlertRuns.FlipsAreQueued | app/dispatcher.py:149-163 | a committed attempt flips alert_sent on exactly when it queues a down alert, and off exactly when it queues a recovery |
| AlertRuns.TaskPersistsOnce | app/dispatcher.py:68-73 | over all retries at most one row is stored, and with it the states of that same attempt |
| AlertRuns.TaskEnds | app/dispatcher.py:68-73 | a task goes on exactly after operational failures, at most three times; its row is that of the last attempt if it commits, and the broker holds what all its attempts queued |
| AlertRuns.AlertsAreAddressed | app/dispatcher.py:20-32 | over whole runs, every alert of a committed or aborted attempt went to the channel and target its configuration had when the check ran, and reports that check |
| AlertRuns.AlertTimeIsKept | app/dispatcher.py:155-159 | last_alert_at becomes the clock of the check exactly when it queues a down alert for the configuration |
| AlertRuns.EditsTakeEffect | app/db.py:144-149 | a pause, a new channel and a new target hold from the next check on |
| AlertRuns.Perform | app/dispatcher.py:109-163 | the events of a run are calls of the monitor's methods |
| AlertRuns.OnlyCommittedIsPublished | app/dispatcher.py:163-170 | every published message describes a stored row, in every run with aborts |
| Agreement.NoticesMatchIncidents | app/db.py:182-196 | per history: down notices equal listed incidents with at least threshold checks, recoveries those already followed by a success |
| Agreement.NoticesAreOwedForRuns | app/dispatcher.py:149-159 | the whole notice log equals the notices owed for the maximal runs |
| Agreement.SteadyTrace | app/dispatcher.py:133-147 | a configuration that stays active with constant threshold observes exactly its endpoint's stored history |
| Agreement.KeptAgreesWithOffline | app/dispatcher.py:149-159 | over whole runs, downs and recoveries of committed checks equal the counts read off the SQL incident list, for every integer threshold |
| Agreement.OnlineAgreesWithOffline | app/dispatcher.py:149-163 | headline: all queued downs (or recoveries) equal that count plus those of aborted attempts, so they agree if and only if no failed attempt had queued one for the configuration |
| Agreement.AbortDuplicatesAlert | app/dispatcher.py:149-163 | the condition is needed: a failed commit and its retry queue two down alerts for one incident |
| Agreement.StoredRowHasNoNotice | dispatcher-java/src/main/java/com/uptime/dispatcher/ProbeTask.java:90-92 | rows of the other dispatcher are excluded for a reason: one failed row lists an incident without any notice |
| Agreement.WithoutAbortsKeptIsBroker | app/dispatcher.py:149-163 | when no attempt aborts, the kept alerts are all the alerts ever queued |
| Publishing.PrevIsNewest | app/dispatcher.py:110-115 | with an ordered history the row read before the insert is the newest one |
| Publishing.AnnouncementsAlternate | app/dispatcher.py:121-122 | announced health alternates strictly, starts with the first check, and the newest announcement tells the current health |
| Publishing.RunPublishesChanges | app/dispatcher.py:120-170 | throughout a run the published messages of an endpoint are exactly those announcements of its stutter-free history that the channel accepted |
| Publishing.AcceptedAll | app/dispatcher.py:166-170 | if every publish gets through, nothing of that history is missing |
| Publishing.LostIsNotRepeated | app/dispatcher.py:121-122 | a lost announcement is not made up for by checks that keep the health |
| Dashboard.SnapshotIsShown | app/static/dashboard.html:278-302 | after a snapshot exactly the listed endpoints have rows, each with the snapshot's overdue flag and with its result unless the row shows a newer one |
| Dashboard.Table.Render | app/static/dashboard.html:267-303 | that is what render leaves; an empty snapshot leaves no rows |
| Dashboard.Table.Merge | app/static/dashboard.html:280-296 | one listed endpoint is merged into its row |
| Dashboard.Table.Drop | app/static/dashboard.html:300-302 | rows that were not listed go, the others stay |
| Dashboard.Table.ApplyUpdate | app/static/dashboard.html:305-319 | a message for an unknown row asks for a snapshot; otherwise its row takes code and time and is not overdue, unless it shows something strictly newer; no other row changes |
| Dashboard.MergeAllTouches | app/static/dashboard.html:278-298 | a snapshot merges each listed endpoint into its own row once and leaves the others as they were |
| Dashboard.ReceiveMerges | app/static/dashboard.html:291-314 | code and timestamp change together and the timestamp never decreases |
| Dashboard.RowShowsNewest | app/static/dashboard.html:291-314 | after any inputs in any order, with duplicates, a row shows the greatest timestamp received and a code that came with it |
| Dashboard.OrderDoesNotMatter | app/static/dashboard.html:291-314 | reordered and repeated inputs end in the same row when equal timestamps carry equal codes |
| Silence.VisibleIsShown | app/static/dashboard.html:305-344 | if the newest change is visible in milliseconds, every row that has learnt of it, by message or by a snapshot taken since, shows the current health |
| Silence.DeliveredIsCaughtUp | app/static/dashboard.html:305-314 | a row that received every announcement has learnt of the newest change |
| Silence.SnapshotRepairs | app/static/dashboard.html:214-221 | a snapshot of the present catches a row up, whatever it missed |
| Silence.InvisibleIsHidden | app/static/dashboard.html:293-296 | if it is not, a stale snapshot from the same millisecond makes the row show the wrong health |
| Silence.SilenceMeansUnchanged | app/static/dashboard.html:291-344 | the law holds for all rows that are caught up if and only if the newest change is visible in milliseconds; receiving every announcement does not change the condition |
| Silence.InvisibleHappens | app/static/dashboard.html:293-310 | an orderly run, with two opposite checks in one millisecond, whose newest change is not visible |
| Silence.AcceptedChangeTells | app/dispatcher.py:166-168 | if the channel accepted the newest change and the published messages arrived, the row has learnt of it |
| Silence.DashboardFollowsDatabase | app/dispatcher.py:120-170 | end to end: after any orderly run, whichever publishes and messages were lost, a row that has learnt of the newest change shows the health of the latest stored row |
| Endpoints.Table.DispatchDueChecks | app/dispatcher.py:34-51 | exactly the active endpoints whose time has come are claimed and move to now plus their interval, and exactly one check is queued for each, with its URL and the probe timestamp |
| Endpoints.PickEarliest | dispatcher-java/src/main/java/com/uptime/dispatcher/EndpointRepository.java:40-46 | as many due rows as the limit allows, none later than one left behind, ties broken at will |
| Endpoints.Table.ClaimDue | dispatcher-java/src/main/java/com/uptime/dispatcher/EndpointRepository.java:37-84 | the batched claim takes an earliest batch of unlocked due rows and advances exactly these |
| Endpoints.Table.AddEndpoint | app/db.py:55-68 | a new endpoint is active with the given URL and interval, due at once and monitored from now; an integrity error leaves nothing |
| Endpoints.UpdateMeans | app/db.py:97-103 | an edit shows what was sent and keeps the rest; schedule and overdue clock restart if and only if the URL or the interval differs afterwards or the endpoint was switched on |
| Endpoints.Table.UpdateEndpoint | app/db.py:93-106 | the owner's endpoint is edited in that way, and nothing else is found or changed |
| Endpoints.Table.DeleteEndpoint | app/db.py:108-114 | only the owner's endpoint is deleted |
| Endpoints.GaugeCountsOverdue | app/db.py:42-53 | the gauge is the number of active endpoints later than interval plus grace against both their latest result and the start of monitoring |
| Endpoints.GaugeCountsAllFlags | app/db.py:42-53 | that number equals the overdue flags summed over all users and all their pages, for every page size |
| Claims.RunKeepsInv | app/dispatcher.py:39-46 | over every interleaving of claims, edits, creations and removals each schedule is the one its log accounts for |
| Claims.NoSlotIsTakenTwice | dispatcher-java/src/main/java/com/uptime/dispatcher/EndpointRepository.java:38-47 | no row is locked by two claims and every claim updates the very slots it saw when it locked them |
| Claims.ClaimsTakeTime | app/dispatcher.py:39-44 | each claim that does not follow a restart costs one interval of time |
| Claims.SpanIsSegment | app/dispatcher.py:39-44 | claims appear in the log in order of time, so a span of time is a stretch of the log |
| Claims.ClaimRate | app/dispatcher.py:39-44 | no catch-up burst: at most floor(t/interval) + 1 + reschedules claims of an endpoint in any span t, for any number of claimers |
| Waiting.BatchAdvances | dispatcher-java/src/main/java/com/uptime/dispatcher/EndpointRepository.java:38-47 | a tick that passes an endpoint over takes a full batch from those ahead of it |
| Waiting.OthersStayBehind | app/db.py:93-106 | claims, edits, creations and removals of others never add to those ahead |
| Waiting.BoundedWaiting | dispatcher-java/src/main/java/com/uptime/dispatcher/EndpointRepository.java:38-47 | a due endpoint that stays active and unedited is claimed within floor(A/B)+1 batches |
| Overdue.StepKeepsInv | app/dispatcher.py:34-51 | every step that respects the timing bounds, claims of any rows between the ticks included, keeps every endpoint on schedule |
| Overdue.OnScheduleIsNotOverdue | app/db.py:17-20 | an endpoint on schedule is not overdue when the bounds fit into the grace period |
| Overdue.NoFalseOverdue | app/db.py:13-30 | main result: no endpoint is ever reported overdue at any moment of any timely run with batched claims, creations, edits, pauses and late commits |
| Overdue.LostTaskIsDetected | app/db.py:13-30 | while no row and no edit arrives, claims cannot move the deadline, and the flag is set exactly when the clock has passed it |
| TableSteps.PerformBatch | dispatcher-java/src/main/java/com/uptime/dispatcher/EndpointRepository.java:38-47 | the batched claim of the table is a batch step of the waiting model |
| TableSteps.PerformSweep | app/dispatcher.py:39-44 | the unlimited claim of the table is a sweep of the waiting model |
| TableSteps.PerformCreate | app/db.py:55-68 | creating an endpoint in the table is a step of the waiting model |
| TableSteps.PerformEdit | app/db.py:93-106 | an edit of the table is a step of the waiting model |
| TableSteps.PerformDispatch | app/dispatcher.py:39-44 | the unlimited claim of the table is a tick of the overdue model |
| TableSteps.PerformOverdueBatch | dispatcher-java/src/main/java/com/uptime/dispatcher/EndpointRepository.java:38-47 | the batched claim of the table is a batch step of the overdue model, whatever timestamps its probes will carry |
| TableSteps.PerformOverdueEdit | app/db.py:93-106 | an edit of the table is a step of the overdue model |
| TableSteps.PerformClaimsEdit | app/db.py:93-106 | an edit of the table is a step of the model of concurrent claimers |
| TableSteps.ClaimLocks | app/dispatcher.py:39-44 | an undisturbed claim can lock its rows one by one |
| TableSteps.ClaimCommits | app/dispatcher.py:39-46 | and its commit then has the effect of the atomic claim of exactly these rows |
| Purge.PickAny | app/dispatcher.py:180-183 | LIMIT without ORDER BY picks any rows, as many as there are up to the limit |
| Purge.Results.DeleteBatch | app/dispatcher.py:177-186 | one batch deletes only rows past the cutoff, as many as there are up to the batch size, and reports how many |
| Purge.Results.PurgeOldResults | app/dispatcher.py:172-190 | for every positive batch size, every choice of victims, a cutoff that moves and concurrent inserts: terminates, leaves exactly the rows within the last cutoff and the new ones, and counts what it removed |
| Purge.OverdueMeans | app/db.py:17-28 | lateral join and NULL-ignoring GREATEST amount to: late against monitoring_since and against every row |
| Purge.GaugeIsOverdueCount | app/db.py:42-53 | the gauge over the table joined with the latest results is the number of overdue endpoints |
| Purge.SameFlag | app/db.py:17-28 | the flag does not notice deleted rows, also when the baseline falls back to monitoring_since |
| Purge.PurgeIsUnobservable | app/dispatcher.py:177-184 | main result: at every moment of every run, also halfway through a purge, incident and summary rows, all overdue flags and the overdue count are as if nothing had been deleted |
| Purge.RetentionIsExact | app/config.py:25-27 | that holds in all runs if and only if retention is at least seven days and at least a day plus the grace period |
| Purge.ShortRetentionShows | app/dispatcher.py:181-184 | with less than seven days a purge changes what the incident query sees |
| Purge.ShortRetentionAlarms | app/db.py:17-20 | with less than a day plus the grace period a purge raises a false overdue flag |
| Purge.LatestSurvives | app/db.py:22-28 | what does change: the latest status and the previous result survive exactly when the endpoint has no row or its newest row is within retention |
| RateLimit.KeysDiffer | app/rate_limit.py:28 | counters are shared only by requests that agree on name, identity and window, whatever colons the identity contains |
| RateLimit.Redis.Incr | app/rate_limit.py:31 | INCR counts up and keeps the expiry of a live key, and starts a dead one at one |
| RateLimit.Redis.Expire | app/rate_limit.py:32 | EXPIRE restarts the key's time to live and keeps its count |
| RateLimit.Redis.Enforce | app/rate_limit.py:24-48 | count and expiry apply together or not at all; a lost reply lets the request through; otherwise less than the limit admits, and anything else is told to wait exactly until the next window, between one second and one window |
| RateLimit.RetryAfterIsExact | app/rate_limit.py:26-43 | Retry-After is between 1 and the window length, waiting it lands in the next window, and one second less does not |
| RateLimit.KeyOutlivesWindow | app/rate_limit.py:32 | a key written in its own window never expires before that window ends |
| RateLimit.CountIsExact | app/rate_limit.py:30-34 | the stored count never exceeds the requests counted in the window, and equals them if and only if each one ran before the key of its predecessor expired |
| RateLimit.RequestFinds | app/rate_limit.py:31-34 | a counted request finds the stored count, or nothing once the key has expired |
| RateLimit.VerdictIsFair | app/rate_limit.py:40-48 | while no key expired early, a request is turned away exactly when Redis answered and its identity had already used the limit in its window |
| RateLimit.AdmissionsAreExact | app/rate_limit.py:30-48 | the exact condition for a window to keep its limit, and to hand out min(requests, limit) admissions with lost replies included: no counted request came after its key expired, or there were no more requests than the limit, or the limit is not positive |
| RateLimit.PunctualIsUnbroken | app/rate_limit.py:26-32 | no key expires early if Redis runs every request within its own window |
| RateLimit.CountInWindow | app/rate_limit.py:30-34 | then at every moment of a window the live count is the number of requests counted in it |
| RateLimit.AdmissionsAreBounded | app/rate_limit.py:30-48 | and an identity gets at most limit admissions per window and at most twice that in any interval as long as the window |
| RateLimit.LateRequestRestartsCount | app/rate_limit.py:26-34 | a run that breaks the limit: a request run a second after its key expired makes a limit of one admit two |
| ProbePool.RunProbe | dispatcher-java/src/main/java/com/uptime/dispatcher/ProbeTask.java:61-95 | one row per probe that was neither interrupted nor ended by an unchecked exception and whose insert worked: the status and time of a response, or the name of the failure and neither; failures count as down |
| ProbePool.ThreadPool.Execute | dispatcher-java/src/main/java/com/uptime/dispatcher/Dispatcher.java:66 | a new worker below core size, else the queue, else rejection |
| ProbePool.FirstComeFirstStarted | dispatcher-java/src/main/java/com/uptime/dispatcher/DispatcherApp.java:40 | over every run, tasks wait only once all threads exist and start in the order in which they were accepted; accepted = started + queue |
| ProbePool.QueueHasWorker | dispatcher-java/src/main/java/com/uptime/dispatcher/DispatcherApp.java:40 | while tasks wait, every thread is busy or one can take the head of the queue |
| ProbePool.ThreadPool.Work | dispatcher-java/src/main/java/com/uptime/dispatcher/ProbeTask.java:61-95 | a worker takes the head of the queue, or finishes its task and stores its row |
| ProbePool.RowsAreOwed | dispatcher-java/src/main/java/com/uptime/dispatcher/ProbeTask.java:79-92 | over every run the stored rows are, in order, exactly one for each task that ended with a completed probe and a working insert, recording its outcome |
| ProbePool.Dispatcher.SubmitProbe | dispatcher-java/src/main/java/com/uptime/dispatcher/Dispatcher.java:64-71 | submits one probe and counts it if it is rejected |
| ProbePool.Dispatcher.Run | dispatcher-java/src/main/java/com/uptime/dispatcher/Dispatcher.java:60-79 | a tick is a run of the pool whose submissions are the claim, in order; it keeps conservation and respects the rejection bound for every interleaving of workers; a failed claim submits nothing |
| ProbePool.StepConserves | dispatcher-java/src/main/java/com/uptime/dispatcher/Dispatcher.java:63-72 | every submission and every move of a worker keeps the bounds of the pool and the ledger of tasks |
| ProbePool.NothingIsLost | dispatcher-java/src/main/java/com/uptime/dispatcher/Dispatcher.java:60-79 | over every run submissions = rejected + queued + running + finished, and an endpoint has at most one row per submission that was not rejected |
| ProbePool.RejectionBound | dispatcher-java/src/main/java/com/uptime/dispatcher/DispatcherApp.java:40 | rejections never exceed max(0, claimed - (P-w) - (Q-q)), however the workers run |
| ProbePool.RejectionsWithoutWorkers | dispatcher-java/src/main/java/com/uptime/dispatcher/DispatcherApp.java:40 | the bound is tight: it is reached when no worker moves, even if all are idle |
| ProbePool.ClaimFits | dispatcher-java/src/main/java/com/uptime/dispatcher/DispatcherApp.java:40 | a fresh pool takes a claim as large as threads and queue together; an idle one with threads may reject what exceeds the queue |
| ProbePool.DefaultSizes | dispatcher-java/src/main/java/com/uptime/dispatcher/Config.java:50-52 | the default 20, 40 and 60: a fresh pool rejects nothing, an idle one may reject twenty |

## Left out

- HTTP probing, SMTP, webhooks, Celery, Redis, JDBC and the WebSocket relay: their outcomes are parameters (status or error, delivered or exhausted, commit or failure, applied or lost).
- Authentication, passwords, tokens, URL validation and the API route wrappers: thin code over libraries.
- `percentile_cont`, `uptime_percent` and their rounding, and the columns `error` and `response_time_ms` of the Python side, with `min(error)` in the incident query: independent of everything proved here.
- Metrics, logging, migrations, container configuration, DOM painting, age formatting and reconnect timers.
- Checks.Monitor.PerformCheck: transactions are serialised; two checks that read and write one alertstate row at the same time are not modelled, and a commit either succeeded or failed, with the caller knowing which.
- Checks.Monitor.PerformCheckTask: the retries of one task run back to back, without other transactions between them; AlertRuns covers interleaved attempts.
- Checks.Monitor.QueueAlert: the branch for an unknown channel is unreachable through the API and not modelled.
- Checks.Monitor.UpdateAlert: a PATCH that sets a required column to null is rejected by the database and not modelled; the same goes for Endpoints.Table.UpdateEndpoint.
- Incidents.QueryListsMaximalRuns: does not state the `error` column, which plays no part in grouping or order.
- Publishing.RunPublishesChanges: stated for an endpoint whose checks commit in increasing order of checked_at and whose rows are all stored by the Python dispatcher; other runs are covered by the alert, incident and overdue results only.
- Endpoints.Table.UpdateEndpoint: the time of an edit is the time of its commit; clocks of API, Postgres and Redis are one clock, except for the probe timestamp of a claim and the two times of a rate-limited request.
- Endpoints.Table.ClaimDue: the claimed rows are returned as a set; the order of RETURNING is not specified by Postgres.
- Purge.PurgeIsUnobservable: speaks of the reads that have a time window or an overdue deadline; for the latest status and for the publish decision Purge.LatestSurvives gives the exact condition instead.
- RateLimit.Redis.Enforce: the floating-point clock is read as whole microseconds, and Redis is assumed to keep live keys (no eviction, no restart).
- ProbePool.ThreadPool.Work: a worker that dies of an unchecked exception is replaced in the same step, and JVM shutdown with its ten-second drain is not modelled, and the probe timestamp and response time are parameters.
