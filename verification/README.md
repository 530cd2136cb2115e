# Zulip analytics, verified

A Dafny model of the part of Zulip that counts things and must not lose count: the analytics fill job and its queries,
the replication of its tables to the push notification bouncer, the charts that read them, and a few smaller pieces with
the same concern (the huddle key, the linkifier cache, two data repairs in migrations). `dafny verify dfyconfig.toml`
checks everything.

**The fill job** (`FillEngine`, `FillInvariant`, `FillRuns`, `FillTheorems`, `FillPermanence`, `SummaryRows`, `LoggedRows`, `FillJob`). `process_count_stat` records
that a time is started, pulls rows for it, sums them to realms and to the installation, and records that the time is done.
It may die between any two statements. `FillEngine` is a machine that executes one database statement at a time;
`FillRuns` lets any history happen to it: runs of any statistic, crashes, and live increments of the logged statistics,
which come in two phases and may land between any two statements, also of a run that completes. One job runs at a time, because the cron command takes a
lock (analytics/management/commands/update_analytics_counts.py:41-47). `FillJob.Analytics` is the loop as it is written,
over tables changed in place; its contract says that it does what the machine does, so the theorems about the machine are
theorems about it.

**The queries** (`CountTables`, `CountQueries`, `MessageCounts`, `StreamCounts`, `ActiveUsers`, `MinutesActive`,
`CountStats`, `StoredCounts`) are functions on source rows, with `GROUP BY` sums as sums over finite sets. `CountStats` declares all
fifteen statistics, shows that they meet what the engine asks of a declaration, and carries the properties of the queries
through to the rows that are stored after any history. `StoredCounts` says of each statistic, in terms of the source rows alone,
what the stored row of a user, stream or realm counts; `SummaryRows` says the same of the realm and installation rows above it.

**The replication** to the push notification bouncer. `RemoteSync` is one post: the bouncer's views and what a server sends.
`Replication` and `ReplicationTheorems` are any history of a sending server: rows that become visible in any order of their
ids, are counted up in place and undone, status requests, requests that are built at one moment and delivered at a later one, or
again, or in part, and the posts of other servers. `Shipping`, `ShippingTheorems`, `ShippingRuns` and `ShippingLimits` put that
together with the fill job: the rows that travel are the rows the job writes, each under the id the database gave it
(`StoredNames` has the text of the columns), and the job's own statements are what inserts, counts up and undoes them.

**The rest**: `ChartTimes`, `ChartSeries` and `ClientRanking` (the charts), `Huddles`, `LinkifierCache`,
`ConfirmationBackfill`, `DuplicateCounts`. `Times`, `Integers`, `Sequences`, `SetSums` and `Options` are shared.

Times are whole seconds. Tables with a uniqueness constraint are maps from the constrained columns; an insert that repeats
a key is an IntegrityError and inserts nothing.

## What turned out to be conditional

- The hourly, per-client and per-type message counts of a day agree exactly when the sender had joined before the end of
  the hour of each message (`MessageCounts.DayAgreement`). Two of the three statistics compare `date_joined` with the end
  of the counted window and the third does not look at it. Activating a mirror dummy account moves `date_joined` forward past
  its old messages (zerver/lib/actions.py:744), and `MessageCounts.SentBeforeJoining` is such a case.
- The counts by stream and the two stream types of the counts by type have the same total exactly when every stream message
  has a stream created before the window ended (`StreamCounts.StreamAgreement`; `StreamCounts.StreamCreatedLater` is a case
  where they differ).
- The audit count equals the partial sum of the log exactly when the changes that happened precisely at the day boundary
  cancel out (`ActiveUsers.AuditAgainstLog`, with `ActiveUsers.BoundaryEvent` as the case where they do not).
- What the bouncer stores is not always the first part of what the server has. `Replication.ExactlyOnce` says for whole
  histories exactly when it is, `Replication.StepKeepsPrefix` for one step and `Replication.DeliveryKeepsPrefix` for one delivery.
  Four things break it:
  - A stored row is counted up in place. This happens every day: `invites_sent::day` and `active_users_log:is_bot:day` are
    kept in RealmCount, whose rows are all sent, and an increment adds to the row in place. The bouncer keeps the value that was
    sent first (`ReplicationTheorems.CountUpNeverArrives`, `ReplicationTheorems.InvitationsAfterSending`).
  - A row that is on its way is counted up, undone or joined by another between the reading of the tables and the storing of
    the request (`ReplicationTheorems.InvitationWhileSending`).
  - A time of which a row is stored is undone (`ReplicationTheorems.UndoneAfterSending`). If it is then filled again and the row
    has a subgroup, the new row conflicts and nothing of that table gets past it for as long as it stays
    (`ReplicationTheorems.RefillBlocks`).
  - A row becomes visible under an id that is not above the last one stored, because its transaction took its id early and
    committed late. It is never sent (`ReplicationTheorems.LateRowNeverArrives`).

  Up to values counted up since, count-ups do no harm at either moment (`Replication.ExactlyOnceUpToValues`).

  The command sends after it has filled every statistic (analytics/management/commands/update_analytics_counts.py:83-96), and
  that is what keeps undos out: a row present while every FillState is DONE can never be undone (`FillPermanence.DoneRowsStay`).
  So when requests are built then, and rows become visible in the order of their ids, what is stored or under way stays a prefix
  up to logged values for good (`ShippingTheorems.CommandDelivers`, `Shipping.SafeSendsReplicate`), and the installation counts and
  the audit log exactly (`ShippingTheorems.ExactElsewhere`). A run with `--stat` fills only one statistic (lines 73-76) and may send
  rows of another that is STARTED. `ShippingLimits.PrefixLastsUnlessUndoable` says exactly when that does harm later,
  `ShippingLimits.PostHoldsUndoable` exactly which posts bring it about, and `ShippingLimits.CrashedFillIsSent` is such an outcome. That
  no id is stored twice or out of order needs no condition (`ReplicationTheorems.IdsAscend`).
- The clearing of duplicates is right exactly for the keys that do not combine several null-subgroup rows with a row that
  has a subgroup (`DuplicateCounts.RepairedUnlessMixed`). Whichever row the database lists first, a total survives exactly under
  `DuplicateCounts.KeepsTotal`, a condition on the rows before (`DuplicateCounts.TotalKept`). `messages_read::hour` is logged but
  not added up, so two rows of it lose one of their values (`DuplicateCounts.MessagesReadIsNotAddedUp`); the next migration, which
  adds the constraint, dates from February 2020 (analytics/migrations/0016_unique_constraint_when_subgroup_null.py:1), and
  whether a database could hold rows of that statistic before it is not settled by the files modelled here.
- Between a write and the flush that its signal handler makes, the shared linkifier cache may be outdated without any cache miss
  (`LinkifierCache.UnflushedWrite`), and another process that begins a request then reads the old list
  (`LinkifierCache.StaleBeforeFlush`). Whenever no flush is to come the cache is coherent exactly as long as no cache miss ends, with
  no flush to come, on a list that changed since the miss began (`LinkifierCache.SharedIsCurrent`). Otherwise it stays outdated
  until the next write, flush, eviction or miss (`LinkifierCache.DisturbedMiss`, `LinkifierCache.OutdatedLasts`), and a process may not
  even see its own write (`LinkifierCache.OwnWriteUnseen`, `LinkifierCache.StaleOwnWrite`).

## Model

| member | source | states |
|---|---|---|
| `FillRuns.CrashInvariant` | zulip/analytics/lib/counts.py:131-167 | After any history of runs, crashes and increments, each grid time of a non-logging statistic up to its last successful fill holds exactly one complete fill, a STARTED time holds part of one, and no other time holds anything |
| `FillTheorems.ResumeEquivalence` | zulip/analytics/lib/counts.py:124-161 | Whatever crashed before, and whatever increments land between the statements, one complete run of a non-logging statistic leaves the rows and FillState of one run on an empty database to the time reached (after runs of its dependencies, if it has any) |
| `FillTheorems.CompletedRun` | zulip/analytics/lib/counts.py:142-160 | A run that is not cut short ends, whatever increments land between its statements, DONE at the last grid point not after the fill time clamped to the dependencies, or where it was if already past that |
| `FillTheorems.WorkTerminates` | zulip/analytics/lib/counts.py:152-160 | Every statement of a run lowers a measure of the work left, so the fill loop and the undo terminate |
| `FillTheorems.PlentyIsUnhurried` | zulip/analytics/lib/counts.py:152-160 | Five statements for each second since the epoch, and five more, are enough for any sequence of runs to that time, from any history and with any increments among them |
| `FillTheorems.RunsEndDone` | zulip/analytics/management/commands/update_analytics_counts.py:83-84 | Running statistics in turn amid live increments, whatever crashed before, leaves each of them DONE |
| `FillTheorems.RunSparesOthers` | zulip/analytics/lib/counts.py:124-158 | A run of one statistic, amid live increments, leaves the FillState of every other statistic alone |
| `FillTheorems.HistoryIndependence` | zulip/analytics/lib/counts.py:124-161 | Two histories that leave a non-logging statistic DONE at the same time leave the same rows for it |
| `FillTheorems.DependencySafety` | zulip/analytics/lib/counts.py:142-150 | A dependent statistic never passes the last successful fill of a dependency, so a dependency being undone has no rows at a time the dependent used |
| `FillTheorems.DependentRowsAreJoins` | zulip/analytics/lib/counts.py:648-680 | Every stored row of a dependent statistic is the join of complete rows of its dependencies that are still stored |
| `FillTheorems.CompleteIsDirectSum` | zulip/analytics/lib/counts.py:213-268 | In a complete fill there is one realm row for each realm, subgroup and time that occurs in the pulled rows, and one installation row for each subgroup and time, each with the total of the pulled rows it occurs in |
| `FillTheorems.FillIsDirectSum` | zulip/analytics/lib/counts.py:213-268 | Also for logged statistics, realm and installation rows group and total the rows present when the realm statement ran, whatever increments land before the installation statement |
| `FillTheorems.InstallationIsDirectSum` | zulip/analytics/lib/counts.py:257-268 | The installation rows of a statistic kept per realm, logged ones included, group its realm rows by subgroup and total them |
| `SummaryRows.StoredSummaries` | zulip/analytics/lib/counts.py:201-286 | After any history, an installation row of a filled time exists exactly for the subgroups that occur in the rows of the statistic's own table and holds their total, and so does a realm row for each realm: the rows stored now or, for a logged statistic, those stored when its fill summed them |
| `FillRuns.NoInsertCollides` | zulip/analytics/models.py:46-132 | No pull, aggregation or refill in any history violates a uniqueness constraint |
| `LoggedRows.LoggingLosesNothing` | zulip/analytics/lib/counts.py:292-327 | Through crashes and undos, the row of an owner, a subgroup and a boundary exists exactly when an increment of that owner and subgroup, with its event in the interval that ends there, was applied; it holds their total and the realm of one of them; every increment begun is applied, still pending, or died with its process |
| `FillRuns.OneBucket` | zulip/analytics/lib/counts.py:313-316 | An increment belongs to the one bucket whose end time is the least boundary not before the event |
| `FillRuns.JobSparesLoggedRows` | zulip/analytics/lib/counts.py:189-193 | No statement of the fill job, undo included, changes or removes a logged row |
| `FillPermanence.SettledRow` | zulip/analytics/lib/counts.py:131-139 | A row cannot be undone exactly when it is a logged row or lies within the last successful fill of its statistic |
| `FillPermanence.PermanentUnlessStarted` | zulip/analytics/lib/counts.py:131-198 | A row present after any history survives every continuation exactly when it is not a row, in a table the undo clears, of a time that is STARTED and not yet DONE |
| `FillPermanence.FullRunEndsDone` | zulip/analytics/management/commands/update_analytics_counts.py:78-84 | A run of every statistic, amid live increments, leaves every FillState DONE |
| `FillPermanence.DoneRowsStay` | zulip/analytics/lib/counts.py:131-136 | Rows present while every FillState is DONE are never deleted, and only the logged ones ever change |
| `FillRuns.NextKeepsInv` | zulip/analytics/lib/counts.py:108-198 | Each action of a history (start, statement, crash, either phase of an increment) keeps the whole invariant |
| `FillInvariant.WorkKeepsInv` | zulip/analytics/lib/counts.py:124-198 | Each database statement of the job keeps the invariant on fill states, job position and rows |
| `FillInvariant.StartKeepsInv` | zulip/analytics/lib/counts.py:121-140 | Beginning a run from any FillState, or refusing a time off the hour, keeps the invariant |
| `FillInvariant.ClampOk` | zulip/analytics/lib/counts.py:142-150 | The clamped fill time is the least of the fill time and the last fills of the dependencies, and there is none exactly when some dependency never ran |
| `FillInvariant.PullIsBase` | zulip/analytics/lib/counts.py:172-179 | The pull executed at a time yields the rows of one undisturbed pull, for dependent statistics too |
| `FillInvariant.NoRealmRowsYet` | zulip/analytics/lib/counts.py:213-229 | When the realm statement runs there is no realm row of the statistic at that time |
| `FillInvariant.NoInstallationRowsYet` | zulip/analytics/lib/counts.py:257-268 | When the installation statement runs there is no installation row of the statistic at that time |
| `CountTables.TwoLevelsAreOne` | zulip/analytics/lib/counts.py:213-268 | Summing to realms and the realms to the installation gives the rows of summing to the installation directly |
| `CountTables.SumsAreGroupedBy` | zulip/analytics/lib/counts.py:213-268 | The summing statement makes one row for each combination of realm (or none), property, subgroup and time that occurs, with the total of the rows it occurs in |
| `CountTables.AggregatePreservesTotal` | zulip/analytics/lib/counts.py:213-268 | Aggregation changes no grand total |
| `CountTables.InsertSlice` | zulip/analytics/lib/counts.py:215-229 | Inserted rows show up at their own statistic and time and nowhere else |
| `CountTables.DeleteOtherSlice` | zulip/analytics/lib/counts.py:189-198 | Deleting the rows of one statistic at one time changes no other statistic or time |
| `FillJob.SumInto` | zulip/analytics/lib/counts.py:213-268 | The summing statement, row by row in any order, makes the grouped totals |
| `FillJob.Analytics.SaveFillState` | zulip/analytics/lib/counts.py:164-167 | Saves time and state of one FillState and nothing else, as one statement of the machine |
| `FillJob.Analytics.DeleteCountsAtHour` | zulip/analytics/lib/counts.py:189-198 | Deletes the derived tables in order, surviving a crash after any of them as the machine does |
| `FillJob.Analytics.AggregateToSummaryTable` | zulip/analytics/lib/counts.py:201-286 | For user and stream statistics only inserts the totals of their rows by realm and subgroup, and then the totals of the realm rows by subgroup |
| `FillJob.Analytics.FillCountStatAtHour` | zulip/analytics/lib/counts.py:172-186 | Pulls unless the statistic is logged, then aggregates |
| `FillJob.Analytics.ClampToDependencies` | zulip/analytics/lib/counts.py:142-150 | The loop over the dependencies computes the clamped time, or none |
| `FillJob.Analytics.FillOne` | zulip/analytics/lib/counts.py:153-160 | One round of the loop, from STARTED to DONE |
| `FillJob.Analytics.ProcessCountStat` | zulip/analytics/lib/counts.py:108-161 | Executed to its end or cut short after any statement, it leaves the tables the machine leaves after as many statements; a time off the hour is a ValueError that changes nothing |
| `FillJob.Analytics.LastSuccessfulFill` | zulip/analytics/lib/counts.py:68-74 | For a pulled or dependent statistic every grid time up to the answer holds a complete fill and no other time holds anything unless it is STARTED; None exactly when it has no FillState |
| `FillJob.Analytics.IncrementLoggingStat` | zulip/analytics/lib/counts.py:292-327 | Makes the row of the owner, the subgroup and the one boundary whose interval holds the event, or raises it, and changes no other row; an increment of 0 does nothing |
| `Times.Floor` | zulip/zerver/lib/timestamp.py:20-27 | The boundary b with b <= x < b + step |
| `Times.Ceiling` | zulip/zerver/lib/timestamp.py:30-41 | The boundary b with b - step < x <= b |
| `Times.CeilingUnique` | zulip/analytics/lib/counts.py:313-316 | That boundary is the only one with this property |
| `Times.TimeIncrement` | zulip/analytics/lib/counts.py:41-45 | Both increments are whole hours and divide a day |
| `MinutesActive.PullMinutesActive` | zulip/analytics/lib/counts.py:408-441 | The accumulating loop stores a row for exactly the users active for at least a minute of the window, with the whole minutes of the seconds that their intervals share with it |
| `MinutesActive.ClippedIsOverlap` | zulip/analytics/lib/counts.py:423-427 | What the loop adds for an interval is the number of seconds of the window that lie in the interval |
| `MinutesActive.MinutesActiveBound` | zulip/analytics/lib/counts.py:412-437 | Of the time a user was active in consecutive days, the stored minutes miss less than a minute a day |
| `MinutesActive.DisjointFitsWindow` | zulip/analytics/lib/counts.py:422-427 | Disjoint intervals never add up to more than the window |
| `MinutesActive.AtMostADay` | zulip/analytics/lib/counts.py:429-439 | With disjoint intervals no day stores more than 1440 minutes |
| `CountQueries.CountByValue` | zulip/analytics/lib/counts.py:453-465 | A grouped count stores, for each key, the number of rows in its group, and no row for an empty group |
| `CountQueries.CountByTotal` | zulip/analytics/lib/counts.py:453-465 | The stored rows of a choice of keys total the source rows that fall in them, each counted once |
| `CountQueries.MessageTypesFlatten` | zulip/analytics/lib/counts.py:480-511 | The nested grouping with its LEFT JOIN is one flat grouping of the messages by sender and type |
| `MessageCounts.HoursCount` | zulip/analytics/lib/counts.py:453-465 | Consecutive hourly values total the messages sent after the sender joined, hour by hour |
| `MessageCounts.ClientsCount` | zulip/analytics/lib/counts.py:453-465 | The client rows of a day total the messages of the day, or nothing if the user had not joined by its end |
| `MessageCounts.TypesCount` | zulip/analytics/lib/counts.py:480-511 | The message type rows of a day total all the messages of the day |
| `MessageCounts.DayAgreement` | zulip/analytics/lib/counts.py:444-513 | The three statistics agree on a user and a day exactly when the user had joined before the end of the hour of every message of that day |
| `MessageCounts.DayAgreementForJoinedUsers` | zulip/analytics/lib/counts.py:711-728 | All three equal the number of messages sent when no message predates its sender |
| `MessageCounts.SentBeforeJoining` | zulip/analytics/lib/counts.py:460-464 | Such a message is counted once for its day, by client and by type, and in none of its hours |
| `ActiveUsers.AuditFindsActive` | zulip/analytics/lib/counts.py:593-612 | The self-join finds exactly the users whose last event before the time is an activation |
| `ActiveUsers.AuditNeverRepeats` | zulip/analytics/lib/counts.py:580-583 | With alternating events in time order no user is found twice |
| `ActiveUsers.ActiveIsNet` | zulip/analytics/lib/counts.py:748-756 | The number of active users is the sum of the changes so far |
| `ActiveUsers.AuditAgainstLog` | zulip/analytics/lib/counts.py:753-757 | The partial sum of the log exceeds the audit count by the net change exactly at the day boundary, so they are equal exactly when that change is nil |
| `ActiveUsers.AuditIsPartialSum` | zulip/analytics/lib/counts.py:753-757 | Without events on the boundary the audit is the partial sum sequence of the log |
| `ActiveUsers.BoundaryEvent` | zulip/analytics/lib/counts.py:602 | One activation exactly on the boundary makes them differ by one |
| `CountStats.Declarations` | zulip/analytics/lib/counts.py:703-816 | All fifteen declarations meet what the engine asks: one row per key, rows of their own statistic, time and table, and dependencies on pulled statistics with a compatible grid |
| `CountStats.StoredRows` | zulip/analytics/lib/counts.py:174-186 | After any history the stored rows of a filled time are the rows of the pull |
| `StoredCounts.StoredHourly` | zulip/analytics/lib/counts.py:444-466 | After any history, the row of a user, a subgroup and a filled hour is there exactly when the user had joined before its end and sent a message in it, of that bot flag, and holds how many |
| `StoredCounts.StoredByClient` | zulip/analytics/lib/counts.py:444-466 | The same for the messages of a filled day sent with one client |
| `StoredCounts.StoredByType` | zulip/analytics/lib/counts.py:469-511 | Of a filled day, the four rows of a user count the messages to recipients of type 1, to recipients of type 3, to others that point at a private stream, and the rest |
| `StoredCounts.StoredByStream` | zulip/analytics/lib/counts.py:520-549 | The row of a stream and a bot flag counts the messages of the day that such senders sent to a recipient of type 2 for that stream, if the stream was created before the end |
| `StoredCounts.StoredJoined` | zulip/analytics/lib/counts.py:554-577 | The row of a realm and a bot flag counts the active users of that realm and flag who joined in the thousand years before, if the realm was created before |
| `StoredCounts.StoredActives` | zulip/analytics/lib/counts.py:624-644 | A user has a 1, 7 or 15 day row exactly when some interval of theirs starts before the time and ends at most that many days, less fifteen minutes, before it |
| `StoredCounts.StoredAuditRow` | zulip/analytics/lib/counts.py:584-612 | A user has the row of their bot flag exactly when some activating event before the time has no event of theirs after it and before the time |
| `StoredCounts.StoredMinutesOf` | zulip/analytics/lib/counts.py:408-441 | A user has a row for exactly the days with at least a minute of activity, and it holds the whole minutes |
| `StoredCounts.StoredHumans` | zulip/analytics/lib/counts.py:648-680 | The row of a realm counts its human users whose last event before the time is activating and who were seen in the fifteen days before |
| `StoredCounts.StoredLog` | zulip/analytics/lib/counts.py:741-806 | The four logged statistics hold, by user and hour or by realm and day as declared, the total of the increments of their owner, subgroup and interval |
| `CountStats.StoredDayAgreement` | zulip/analytics/lib/counts.py:711-728 | After any history, once a day is filled, the stored type rows of a user total the messages sent that day, and the stored hourly and client rows agree with them exactly when the user had joined before the end of the hour of every message of that day |
| `CountStats.StoredAuditAgainstLog` | zulip/analytics/lib/counts.py:741-757 | After any history that logged and applied every event, the stored log rows exceed the stored audit row by the net change exactly at the boundary |
| `CountStats.StoredActiveHumans` | zulip/analytics/lib/counts.py:808-813 | After any history the stored dependent row counts exactly the realm's human users that the audit finds and that were active within fifteen days |
| `CountQueries.CountAllOf` | zulip/analytics/lib/counts.py:460-464 | A narrower filter counts as many rows as a wider one exactly when it keeps all that the wider one keeps |
| `StreamCounts.StreamAgreement` | zulip/analytics/lib/counts.py:516-549 | The counts by stream total the counts of the two stream types exactly when every message taken for a stream message went to a stream created before the window ended |
| `StreamCounts.StreamCreatedLater` | zulip/analytics/lib/counts.py:516-549 | A message to a stream created only at the end of the window is counted by type and not by stream |
| `CountStats.StoredStreamAgreement` | zulip/analytics/lib/counts.py:717-735 | After any history the stored rows of a filled day agree under the same condition |
| `CountStats.StoredActivesNest` | zulip/analytics/lib/counts.py:781-798 | After any history whoever has a stored one-day row of a filled day has the seven-day row, and then the fifteen-day row |
| `RemoteSync.CheckMeaning` | zulip/zilencer/views.py:202-211 | Validation passes exactly when every property is known and the ids strictly ascend from the last one stored |
| `RemoteSync.CheckAnswers` | zulip/zilencer/views.py:202-211 | A failed validation answers for the first row that does not pass, with an unknown property before an id out of order |
| `RemoteSync.FirstErrorAnswers` | zulip/zilencer/views.py:281-296 | A refused post is answered with the error of the first of the three tables that has one |
| `RemoteSync.ConflictMeaning` | zulip/zilencer/models.py:68-90 | Two rows conflict exactly when they are of one server, have a subgroup, and differ at most in id and value |
| `RemoteSync.Bouncer.GetLastIdFromServer` | zulip/zilencer/views.py:335-339 | The largest remote id stored for the server, or 0 if it has none |
| `RemoteSync.Bouncer.ValidateIncomingTableData` | zulip/zilencer/views.py:202-211 | The loop answers with the first error in row order, or none |
| `RemoteSync.Bouncer.BulkCreate` | zulip/zilencer/views.py:221-230 | Stores a batch whole, or none of it when a row conflicts or the database fails |
| `RemoteSync.Bouncer.BatchCreateTableData` | zulip/zilencer/views.py:214-231 | Stores whole batches from the front, in order and under the server's name, and stops only where the database gives up or the next batch conflicts |
| `RemoteSync.Bouncer.RemoteServerPostAnalytics` | zulip/zilencer/views.py:281-332 | A failed validation answers with the first error of the three tables and stores nothing; otherwise the tables are filled in order, each by a prefix of its rows, and fall short only where the database gives up or the next batch conflicts; the uniqueness constraints are kept |
| `RemoteSync.PostedRows` | zulip/zilencer/views.py:288-330 | A post appends the kept rows to its own server's rows and leaves other servers' rows alone |
| `RemoteSync.StoredRowsAreUnique` | zulip/zilencer/models.py:68-86 | The constraint keeps the rows of each server distinct in their columns |
| `RemoteSync.NeverStuckByConflict` | zulip/zilencer/views.py:214-231 | Rows that repeat no columns of the server's stored rows or of each other never conflict, so only a failing database can cut their post short |
| `Replication.SendsStretch` | zulip/zerver/lib/remote_server.py:129-177 | The client sends the stretch of its table that follows the acknowledged prefix, at most 10000 rows |
| `Replication.EveryHistory` | zulip/zerver/lib/remote_server.py:164-177 | In any history the ids ascend on both sides, and the acknowledged id is that of some stored prefix |
| `Replication.StepKeepsPrefix` | zulip/zerver/lib/remote_server.py:168-177 | A step other than a delivery keeps the stored rows a prefix of the sender's exactly when it neither counts up a row whose id is not above the last id stored, nor undoes a property and time of which a row is stored, nor makes a row visible under an id not above the last id stored |
| `Replication.StepKeepsPrefixUpToValues` | zulip/zerver/lib/remote_server.py:168-177 | Up to values counted up since, it does so exactly when it neither undoes a property and time of which a row is stored nor makes a row visible under an id not above the last id stored |
| `Replication.DeliveryKeepsPrefix` | zulip/zerver/lib/remote_server.py:168-191 | A delivery, late, repeated or partial, keeps it exactly when the sender's rows under the ids it stores are what they were when the request was built |
| `Replication.DeliveryKeepsPrefixUpToValues` | zulip/zerver/lib/remote_server.py:168-191 | Up to values, exactly when these are the same rows up to values |
| `Replication.ExactlyOnce` | zulip/zilencer/views.py:202-231 | Over any history of growth in any order, count-ups, undos, status requests, late, repeated and partly failed deliveries and posts of other servers, each stored table is at every moment a prefix of the sender's exactly when no step touches what is already stored and no delivery stores what changed since its request was built |
| `Replication.ExactlyOnceUpToValues` | zulip/zilencer/views.py:202-231 | Up to values, and so in its ids, it is a prefix at every moment exactly when, apart from count-ups, that holds |
| `ReplicationTheorems.IdsAscend` | zulip/zilencer/views.py:205-211 | Whatever becomes of the sender's tables, the stored ids of every server strictly ascend in every table |
| `ReplicationTheorems.AnyPostAscends` | zulip/zilencer/views.py:205-211 | Whatever a server posts, stored ids stay strictly ascending |
| `Replication.StoredForGood` | zulip/zilencer/views.py:221-230 | What is stored stays as it was, as the first part of what is stored later |
| `ReplicationTheorems.CountUpNeverArrives` | zulip/analytics/lib/counts.py:318-327 | After a stored row is counted up in place, no later post changes the stored value |
| `ReplicationTheorems.LateRowNeverArrives` | zulip/zerver/lib/remote_server.py:168-177 | A row that becomes visible under an id not above the last one stored is in no later stored table |
| `ReplicationTheorems.InvitationsAfterSending` | zulip/zerver/lib/actions.py:7061-7072 | One invitation is counted and sent and a second one counted: the next post has nothing to send, and the bouncer keeps 1 where the server has 2 |
| `ReplicationTheorems.InvitationWhileSending` | zulip/zerver/lib/actions.py:7061-7072 | An invitation is counted between the building and the storing of a request: no stored row is touched, and the bouncer has 1 where the server has 2 |
| `ReplicationTheorems.UndoneAfterSending` | zulip/analytics/lib/counts.py:189-198 | A row is sent and its time undone: the bouncer holds a row that the server has not |
| `ReplicationTheorems.BlockedForGood` | zulip/zilencer/models.py:85-86 | While the sender's table holds a row that repeats the columns of a stored row under a higher id, nothing from it on is ever stored |
| `ReplicationTheorems.RefillBlocks` | zulip/zilencer/models.py:85-86 | After any history, undoing a stored row with a subgroup and filling it again stops its table there for as long as the new row stays |
| `ReplicationTheorems.CurrentPostDelivers` | zulip/zerver/lib/remote_server.py:157-193 | While the stored rows have been a prefix up to values, a post built and delivered on the current status is accepted, conflicts with nothing and brings each table what the bouncer lacked up to the limit |
| `Shipping.MovedKeepsInv` | zulip/analytics/management/commands/update_analytics_counts.py:83-96 | Each step of the job, of a live request or of the sending keeps the tables a listing of the job's rows, each once, under ascending ids |
| `Shipping.LocalKeepsPrefix` | zulip/analytics/lib/counts.py:189-198 | While nothing stored or under way can be undone, no statement of the job and no increment, its rows visible in the order of their ids, breaks the prefix up to values |
| `Shipping.SafeSendsReplicate` | zulip/analytics/management/commands/update_analytics_counts.py:83-96 | When a server builds its requests only while nothing in its sent tables can be undone, and rows become visible in the order of their ids, then at every moment what is stored or under way is the first part of each table up to counted-up values, none of it can ever be undone, and every value that is not logged is the sender's |
| `ShippingTheorems.OnlyLoggedValuesLag` | zulip/analytics/lib/counts.py:318-327 | Then each stored row equals the sender's row in its place unless it is a row of a logged statistic |
| `ShippingTheorems.ExactElsewhere` | zulip/zerver/lib/remote_server.py:168-177 | Then the installation counts and the audit log are replicated exactly |
| `ShippingTheorems.StoredIsFilled` | zulip/analytics/lib/counts.py:124-186 | Then each stored row of a pulled or dependent statistic has the value one undisturbed fill of its time gives it |
| `ShippingTheorems.CommandDelivers` | zulip/analytics/management/commands/update_analytics_counts.py:83-96 | After whatever happened, a run of every statistic and then status, request and delivery, with live increments and other servers' posts in between at every point, are safe in the above sense and deliver what the bouncer lacked when the request was built, up to the limit |
| `ShippingLimits.PrefixLastsUnlessUndoable` | zulip/analytics/management/commands/update_analytics_counts.py:73-76 | From any state with the prefix and nothing undoable under way, every continuation whose requests are built safely keeps it exactly when the bouncer holds no row, in a table the undo clears, of a time that is STARTED and not yet DONE |
| `ShippingLimits.PostHoldsUndoable` | zulip/analytics/management/commands/update_analytics_counts.py:73-76 | A post of all that the bouncer lacks leaves it with such a row exactly when some row of the sent tables could be undone as the post was built |
| `ShippingLimits.CrashedFillIsSent` | zulip/analytics/lib/counts.py:131-136 | A run that dies after its pull and a post that follows leave the bouncer with a row that the next run will undo |
| `ShippingRuns.EveryHistoryMoves` | zulip/analytics/lib/counts.py:108-198 | Every history of the job and of live requests, from any moves on, has inserts, count-ups and undos, visible in the order of their ids, that make it one of the joint system |
| `ChartTimes.TimeRange` | zulip/analytics/lib/time_utils.py:12-33 | The ascending list, step by step, of the boundaries from the start to the end and, with a min_length, of those less than that many steps before the last |
| `ChartTimes.RangeMembers` | zulip/analytics/lib/time_utils.py:26-33 | With no min_length the list holds exactly the boundaries t with start <= t <= end; with one also those less than that many steps before the last boundary |
| `ChartTimes.MinLength` | zulip/analytics/lib/time_utils.py:27-28 | A positive min_length is a lower bound on the length and nothing more |
| `ChartTimes.Ascends` | zulip/analytics/lib/time_utils.py:29-33 | The list strictly ascends |
| `ChartSeries.GatherValues` | zulip/analytics/views/stats.py:496-503 | The nested dictionaries look up exactly the stored value of each subgroup and time, 0 where there is no row |
| `ChartSeries.GetTimeSeriesBySubgroup` | zulip/analytics/views/stats.py:488-512 | Returns the labelled series, and for the client statistic their merge by shown label |
| `ChartSeries.LabelShowsSubgroup` | zulip/analytics/views/stats.py:504-507 | A label used once shows the stored value of its own subgroup at each end time, 0 where there is no row, and is left out exactly when empty subgroups are and there is no row at any time |
| `ChartSeries.SeriesTotal` | zulip/analytics/views/stats.py:504-507 | A series adds up to the stored rows at its end times, each read once |
| `ChartSeries.LabelledTotal` | zulip/analytics/views/stats.py:504-507 | At each end time the labels share out exactly the stored rows of the labelled subgroups |
| `ChartSeries.ChartTotal` | zulip/analytics/views/stats.py:496-507 | Over rows on the fill grid a series adds up to every stored row in that range |
| `ChartSeries.RowsOnGrid` | zulip/analytics/lib/counts.py:152-160 | After any history every stored row, pulled, derived or logged, lies on the grid of its statistic |
| `ChartSeries.ChartOfHistory` | zulip/analytics/lib/time_utils.py:12-33 | So after any history a chart misses no stored row in its range |
| `ChartSeries.DefaultRangeShowsAll` | zulip/analytics/views/stats.py:337-349 | From the epoch to the last successful fill, once that fill is done, a chart shows every stored row of its series |
| `ChartSeries.RewriteClientArrays` | zulip/analytics/views/stats.py:476-485 | Each shown label gets a new array, shared with nothing, that is the pointwise sum of the arrays it stands for; the given arrays are not modified |
| `ChartSeries.ClientLabels` | zulip/analytics/views/stats.py:456-473 | The shown name of each known client, of any desktop version and of any integration; every other name stays as it is |
| `ChartSeries.MergeConserves` | zulip/analytics/views/stats.py:476-485 | At every index the total over the labels is the same before and after merging |
| `ChartSeries.ClientChartTotal` | zulip/analytics/views/stats.py:488-512 | At each end time the merged client labels share out exactly the stored rows |
| `ClientRanking.SortByTotals` | zulip/analytics/views/stats.py:416-419 | Every label once, by falling total and then by falling label |
| `ClientRanking.LexMeaning` | zulip/analytics/views/stats.py:417-419 | One label is less than another exactly when it ends, or has the smaller character, where they first differ |
| `ClientRanking.RankingUnique` | zulip/analytics/views/stats.py:417-419 | There is only one such order of a set of labels |
| `ClientRanking.LabelSortValues` | zulip/analytics/views/stats.py:431-435 | The two loops give each label of either order the sort value, in tenths, of its places in both |
| `ClientRanking.NoTies` | zulip/analytics/views/stats.py:431-435 | No two labels share a sort value |
| `ClientRanking.SortClientLabels` | zulip/analytics/views/stats.py:428-436 | Every label of either ranking once, strictly by sort value |
| `ClientRanking.MergedByPlace` | zulip/analytics/views/stats.py:428-436 | The merged order takes the labels by their first place in either order, and of two with the same first place the one of the user's order first |
| `ClientRanking.TopN` | zulip/analytics/views/stats.py:422-427 | For every N, each label among the first N of the everyone order or of the user order is among the first 2N of the result |
| `Huddles.SortedSetSorts` | zulip/zerver/models.py:3312 | The canonical list is strictly ascending and has the same elements |
| `Huddles.ReadBack` | zulip/zerver/models.py:3313 | The comma-joined decimals of any list of integers read back as that list |
| `Huddles.KeyIsTheSet` | zulip/zerver/models.py:3311-3314 | Two id lists have the same key exactly when they are equal as sets |
| `Huddles.HuddlesStay` | zulip/zerver/models.py:3325-3347 | A huddle once found keeps its row and its members through any further history |
| `Huddles.OneHuddlePerSet` | zulip/zerver/models.py:3321-3347 | With a collision-free digest, two calls in any history return the same huddle exactly when they name the same set |
| `Huddles.MembersAreTheSet` | zulip/zerver/models.py:3331-3346 | Its subscriptions are for exactly the users of the set that existed at the first call, one each, and say whether the user was active then |
| `Huddles.HuddleTables.GetHuddleBackend` | zulip/zerver/models.py:3325-3347 | From cache, table or a new row with its subscriptions, it returns and caches the huddle of the hash |
| `Huddles.HuddleTables.GetHuddle` | zulip/zerver/models.py:3321-3323 | Finds or creates the huddle of the list's key and keeps every uniqueness the tables rely on |
| `LinkifierCache.SharedIsCurrent` | zulip/zerver/lib/cache.py:180-208 | Whenever no flush of the realm is to come, its shared entry is absent or equal to the database, exactly when no cache miss of the realm ends, with no flush to come, on another list than the database had when the miss began |
| `LinkifierCache.WritesAreKept` | zulip/zerver/models.py:1189-1214 | A realm has what was saved last under each id and not deleted since, and no other step changes what it has |
| `LinkifierCache.UnflushedWrite` | zulip/zerver/models.py:1204-1214 | A write that changes a cached list leaves the shared entry outdated until the handler flushes it, with no miss at all |
| `LinkifierCache.StaleBeforeFlush` | zulip/zerver/models.py:1204-1214 | A history in which a process begins a request after another's write and before its flush, and reads the list from before the write |
| `LinkifierCache.DisturbedMiss` | zulip/zerver/lib/cache.py:180-208 | Whenever the list changes between the two steps of a miss, the miss leaves the shared entry outdated |
| `LinkifierCache.OutdatedLasts` | zulip/zerver/models.py:1189-1214 | An outdated shared entry stays outdated until a write, a flush, an eviction or another miss of the realm |
| `LinkifierCache.EvictedIsGone` | zulip/zerver/lib/cache.py:180-208 | An eviction takes the realm's shared entry and nothing else |
| `LinkifierCache.CachedWasCurrent` | zulip/zerver/models.py:1171-1201 | In any history no cache holds a list that the database never held |
| `LinkifierCache.ReadIsCurrent` | zulip/zerver/models.py:1171-1174 | A process without an entry of its own reads the current list exactly when the shared entry is absent or current |
| `LinkifierCache.LocalWasCurrent` | zulip/zerver/models.py:1171-1174 | While no miss ends on a changed list, a process's own entry is what the database held at some moment since the process last flushed or ended a request, or since the last moment before that with no flush to come |
| `LinkifierCache.ReadsOwnWrites` | zulip/zerver/models.py:1204-1214 | Then a process sees the current list unless the realm was written since that moment; it sees its own writes unless another write was then still to be flushed |
| `LinkifierCache.OwnWriteUnseen` | zulip/zerver/lib/cache.py:180-208 | A write made during another process's miss, if it makes the list another than the one being fetched, is not seen by its own process, flushed as it is, after that miss ends |
| `LinkifierCache.StaleOwnWrite` | zulip/zerver/lib/cache.py:180-208 | A history from empty caches in which a process reads a list without the linkifier it has just saved and flushed |
| `LinkifierCache.AtomicIsCurrent` | zulip/zerver/models.py:1171-1201 | When each cache miss is one step, the shared cache is coherent in every history whenever no flush is to come |
| `LinkifierCache.OthersLag` | zulip/zerver/models.py:1163-1174 | Whatever others write and flush, a process serves the list it has until its request ends or it flushes the realm itself |
| `LinkifierCache.RefreshedIsGone` | zulip/zerver/models.py:1204-1221 | After its request ends, or its own flush of the realm, it has no entry |
| `LinkifierCache.Caches.LinkifiersForRealm` | zulip/zerver/models.py:1171-1174 | Reads the process's entry, the shared one or the database, and leaves both caches filled as the two steps of a miss do |
| `LinkifierCache.Caches.FlushLinkifiers` | zulip/zerver/models.py:1204-1210 | Clears the shared entry and the process's own entry of the realm, and no other |
| `LinkifierCache.Caches.FlushPerRequestCaches` | zulip/zerver/models.py:1217-1221 | Clears every entry of the process |
| `LinkifierCache.Caches.SaveLinkifier` | zulip/zerver/models.py:1204-1214 | Saves the row and then flushes, so that it leaves what the two steps of the history leave |
| `LinkifierCache.Caches.DeleteLinkifier` | zulip/zerver/models.py:1204-1214 | Deletes the row and then flushes, likewise |
| `ConfirmationBackfill.BackfillIsDefault` | zulip/confirmation/models.py:172-187 | The backfilled row is the row a default link sent at that date would have made, for every type but the one without properties |
| `ConfirmationBackfill.OverrideIsBackfill` | zulip/confirmation/models.py:100-108 | A link with its own number of days equals the backfilled row exactly when that makes the same date, and zero days count as none |
| `ConfirmationBackfill.ConfirmationTable.BackfillConfirmationsBetween` | zulip/confirmation/migrations/0009_confirmation_expiry_date_backfill.py:24-39 | Sets the expiry of every row in the inclusive range and changes nothing else |
| `ConfirmationBackfill.ConfirmationTable.SetExpiryDateForExistingConfirmations` | zulip/confirmation/migrations/0009_confirmation_expiry_date_backfill.py:12-54 | Every row ends with its default expiry, and the table is what the given inclusive batches make of it, one after the other; they tile the ids from first to last; an empty table is left alone |
| `ConfirmationBackfill.VisitedOnce` | zulip/confirmation/migrations/0009_confirmation_expiry_date_backfill.py:41-53 | Every id from first to last lies in exactly one batch |
| `ConfirmationBackfill.WrittenOnce` | zulip/confirmation/migrations/0009_confirmation_expiry_date_backfill.py:41-53 | Of batches that tile the ids exactly one holds a given row: the row is untouched by the batches before it, and has its default from then on |
| `ConfirmationBackfill.RestartIsHarmless` | zulip/confirmation/migrations/0009_confirmation_expiry_date_backfill.py:24-39 | A complete run after any batches leaves what it would have left without them |
| `DuplicateCounts.CountTable.ClearDuplicateCounts` | zulip/analytics/migrations/0015_clear_duplicate_counts.py:30-54 | Of each duplicated key one row survives, with the total for the two listed properties and unchanged for the others; every other key is untouched |
| `DuplicateCounts.CountTable.DuplicatedKeys` | zulip/analytics/migrations/0015_clear_duplicate_counts.py:34-39 | The grouping query finds the keys with more than one null-subgroup row, and their totals |
| `DuplicateCounts.ConstraintHolds` | zulip/analytics/migrations/0015_clear_duplicate_counts.py:8-17 | Afterwards no key has two null-subgroup rows |
| `DuplicateCounts.RepairedUnlessMixed` | zulip/analytics/migrations/0015_clear_duplicate_counts.py:41-54 | The repair keeps one original null row and every row with a subgroup exactly for the keys that do not mix several null rows with a row that has a subgroup |
| `DuplicateCounts.TotalKept` | zulip/analytics/migrations/0015_clear_duplicate_counts.py:46-54 | Whichever row is listed first, a key keeps its null-subgroup total exactly when it is not duplicated, or its null rows are all 0, or its property is one of the two listed and no row with a subgroup stands beside a total other than 0 |
| `StoredCounts.AddedUpAreRealmLogs` | zulip/analytics/migrations/0015_clear_duplicate_counts.py:46-49 | The two properties whose duplicates are added up are exactly the logged statistics kept by realm |
| `DuplicateCounts.EqualDuplicates` | zulip/analytics/migrations/0015_clear_duplicate_counts.py:47-49 | Duplicates that all have the value they should leave that value |
| `DuplicateCounts.MessagesReadIsNotAddedUp` | zulip/analytics/lib/counts.py:777 | `messages_read::hour` is logged but not listed: its duplicates 3 and 4 leave 3 or 4 |
| `DuplicateCounts.MixedKeyLoses` | zulip/analytics/migrations/0015_clear_duplicate_counts.py:44 | A key with two null rows and a row with a subgroup is not repaired |

## Left out

- The `realm` argument of the fill functions: documented as not supported for FillState (analytics/lib/counts.py:111-119).
- Two fill jobs at once, and two posts of one server at once: one at a time is assumed; crashes, increments and other servers' posts are interleaved.
- SQL text, the database driver, logging, timers and `do_drop_*`: a query is its meaning on rows, and a statement happens whole or not at all.
- The joins with `zerver_realm`, `zerver_userprofile` and `zerver_recipient` by foreign key, and the COALESCE of a sum over no rows: the row that an id refers to is taken to exist.
- Source rows that change between runs: the pull queries read fixed source data, and a user's realm and bot flag are fixed.
- A dependency on a logged or dependent statistic: no declaration has one, and `FillInvariant.ClampOk` alone covers it.
- Fractions of a second: times and activity intervals are whole seconds, and the `i - 0.1` ranking is in tenths.
- FillJob.Analytics.IncrementLoggingStat: one call undisturbed between its two phases; the interleavings are in `FillRuns`.
- Audit rows of one user at the same instant: `ActiveUsers` takes the log in time order with strictly later events for each user, as the comment at analytics/lib/counts.py:581-583 requires.
- Replication.ExactlyOnce: the tables of one request are read at one moment, as is the status; the HTTP layer, the JSON checks and the remote rows' other columns are not part of this model.
- The text of a bool in a subgroup column: `active_users_log:is_bot:day` is given a Python bool (zerver/lib/actions.py:763-768), which `StoredNames` takes to be stored as "True" or "False"; only that the two differ is used.
- Shipping.SafeSendsReplicate: the audit log only grows, and deleting a realm, which deletes its rows in RealmCount, is not part of this model.
- RemoteSync.Bouncer.BulkCreate: a database failure other than a conflict counts as the same error, where the original would let it through.
- The rest of the stats page: chart choice, permissions, start and end defaults other than the installation's, and the charts of remote tables, whose missing server filter is a TODO at analytics/views/stats.py:390-393.
- The order of labels inside a chart's dictionary: results are maps, and where two subgroups share a label the later one in the given list wins.
- The digest of the huddle key: any injective function; SHA-1 and its collisions are not part of this model.
- Deleting huddles or subscriptions, and a user's later change of activity: a huddle's subscriptions are those made with it.
- Failures of the shared cache, and the timeout of its entries other than as an eviction at any moment.
- The reverse migrations, and rows written while a migration runs.
- DuplicateCounts.CountTable.ClearDuplicateCounts: one table at a time; the migration does the same to four.
- analytics/lib/fixtures.py, billing, settings, templates and the permission tables: nothing there depends on the state modelled here.
