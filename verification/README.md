# Autoposter: delivery, identity merge and client protocols

Autoposter renders posters and metadata and delivers them to several media servers. This project models
the parts of it whose promises span many functions, and proves those promises.

**Deliveries and catch-up runs.** Two outcome tables, artwork by (render, server) and metadata by
(item, server), carry a status, a retry counter, a horizon, the last delivery, and the catch-up run that armed
the row together with the status it had before. Every writer goes through one upsert; the retry pass takes due
rows with a savepoint and a commit each; a catch-up run marks a server's backlog, drains it in batches, and is
closed by the drain or by a cancel. `Outcomes`, `Database`, `Presence`, `CatchUp`, `RetryPass` and `Drain` say
what each operation does to the tables as values and prove what it keeps. `Store.Tables` and `Drainer` are the
operations as the service performs them, in place, statement by statement and row by row, each proved to leave
the state its specification names. `Invariants` and `Protocol` put every writer together, one committed
transaction at a time, and prove what no interleaving can break; `CachedStatus` and `Dates` follow a render's two
cached columns through them, and `LostWrite` a write that a cancel forgets.

What the servers answer is arbitrary: `RetryPass.Answer` carries, per row, every resolution, identity,
composition, upload and write result, an exception before or after the row's outcome, and whether its commit
lands. Clocks, library listings and health are parameters.

**The identity merge.** `IdentityMerge` is the migration that keeps one media item per identity key, with its
preview. The loop and the per-table merge are methods over the tables; the specification is read off the rows
as they were before the migration. The identity rule itself is an arbitrary function of the row.

**The switches that owe a catch-up.** `Toggles` is the finite scan over named scopes, proved exact over every
library name there could be.

**The web client.** `Overrides` has the nested-document path functions and the redaction-aware rebuild,
`Client` the shared in-flight reads, and `Ndjson` the chunked line loop.

## Findings

The model follows the code where the code and its documentation part ways.

- The retry pass counts a row twice when something raises after its outcome was tallied and the commit then
  succeeds: the outcome and a `pending`. Its per-server sum balances if and only if that never happens
  (`RetryPass.LedgerBalances`).
- A render's delivery date can move back, from an empty history and with a clock that only runs forward
  (`Dates.ACancelCanMoveADateBack`): a cancel removes a row that recorded a delivery, and a later `rollup` finds an
  older one. Nothing else brings it about (`Dates.OnlyACancelMovesDatesBack`), and a cancel leaves the date without
  its delivery exactly when it removes every row as recent (`Dates.CancelUnbacksIff`).
- A cancel can delete the only record of a write: a row the run created, written inside it and then put back to
  `pending` by an ordinary pass that fails to write it again (`LostWrite.ACancelCanLoseAWrite`). The drain alone never
  produces such a row (`Drain.CancelLosesADeliveryIff`, `Drain.DrainsThenCancelLoseNoDelivery`).
- A row that fails on its last attempt ends with one attempt more than the budget, because the code records the
  `pending` and then the `failed` (`RetryPass.TransportFailsAtExactlyTheBudget`).
- The marking's comment says that an insert before the update would leave every fresh row remembering `pending`.
  It would not: the update carries an armed row's memory on, so the two statements commute
  (`CatchUp.EitherOrderMarks`).
- A library named by the empty string hides a change of the global switch from the scan
  (`Toggles.TheEmptyNameHidesAFlip`). The scan answers for every named library exactly when no such library
  overrides the switch with another value (`Toggles.AnswersForAllIff`), and is then exact.
- Removing a setting that is not there can delete an empty section above it
  (`Overrides.RemovalChangesNothingIff`).
- No token and the empty token share in-flight reads (`Client.SharedSessionsAreOneIff`), and a late 401 of an
  earlier session drops the token of the current one even though nobody joined that request
  (`Client.ALateRefusalDropsTheNewToken`), exactly when the token has changed since the call and is still one
  (`Client.ALateRefusalDropsAnotherSessionIff`).

## Model

| member | source | states |
|---|---|---|
| Outcomes.UpsertOutcome | src/autoposter/deliveries.py:95-205 | The upsert, built and popped column by column, leaves the row the column rules describe and returns the budget spent; it refuses exactly the words outside the vocabulary and a `pending` without a delay |
| Outcomes.AttemptsAreTheStreak | src/autoposter/deliveries.py:140-147 | Over any history of records, `attempts` is the number of counted `pending`/`failed` outcomes since the last settle or reset, plus the starting value if nothing forgot it |
| Outcomes.AbsentIsFinal | src/autoposter/deliveries.py:195-203 | A history leaves a row absent exactly when the row started absent or some call that reached it said so |
| Outcomes.RecordNeverLeavesAbsent | src/autoposter/deliveries.py:195-199 | No sequence of records changes anything about an absent row |
| Outcomes.DeliveryIsNeverErased | src/autoposter/deliveries.py:161-179 | Over any records with a clock that does not run backwards, the terminal timestamp and the fingerprint never revert to null and the timestamp only grows |
| Outcomes.TerminalStampIsTheLastDelivery | src/autoposter/deliveries.py:161-179 | From any row, over any history, the stored timestamp is that of the last delivery applied and the fingerprint that of the last one that named one; with none, the row keeps what it started with |
| Outcomes.LastCallDecides | src/autoposter/deliveries.py:143-160 | Over any history, the last call applied decides the word, the instant and -- unless it keeps a horizon that is there -- the horizon: its delay from then for `pending`, none for any other word |
| Outcomes.LastCallSpends | src/autoposter/deliveries.py:140-147 | It leaves, and returns, no budget for a word that settles, and else what was spent before, forgotten on a reset, and one more if it counts; on an absent row it spends nothing and returns zero |
| Outcomes.KeptHorizonStays | src/autoposter/deliveries.py:131-160 | A horizon outlives every call that says to keep it |
| Outcomes.ScopeIsKeptUntilLeft | src/autoposter/deliveries.py:121-151 | Over any records a row keeps its run and its remembered status until one applied leaves the run, and has neither from then on |
| Database.LadderMeaning | src/autoposter/deliveries.py:302-321 | What each cached status says about the rows, both ways: failed over pending over uploaded over skipped, absent saying nothing |
| Database.RollupAgrees | src/autoposter/deliveries.py:289-334 | Any write to one render's rows followed by its roll-up leaves every cached column right |
| Database.RollupManyAgrees | src/autoposter/servers/presence.py:175-261 | A set-shaped write that re-rolls every render it touched leaves every cached column right |
| Database.RollupMovesDateBackIff | src/autoposter/deliveries.py:322-332 | A roll-up never blanks the delivery date, and moves it back exactly when every delivery the rows hold is older |
| Database.UploadedAtNeverMovesBack | src/autoposter/deliveries.py:322-332 | Over any interleaving of records and roll-ups with a non-decreasing clock, a render's delivery date never decreases |
| Presence.AbsentIff | src/autoposter/servers/presence.py:49-154 | After presence a row is absent exactly when its library is not carried and the server never took the delivery, or it was absent and presence had no say |
| Presence.PresenceLeaves | src/autoposter/servers/presence.py:49-154 | Read off the tables, what presence leaves at each key: which rows stay, which are created or turned absent, which are due at once, with every column |
| Presence.PresenceAgrees | src/autoposter/servers/presence.py:156-157 | Presence leaves every cached column right |
| CatchUp.MarkAgrees | src/autoposter/catchup.py:206-402 | Marking a backlog leaves every cached column right |
| CatchUp.ArtworkJoinsIff | src/autoposter/catchup.py:336-388 | A start puts an artwork row into its run exactly when uploads are on, the render is rendered, no background and of a carried library, and the row is missing, unsettled, or uploaded with another fingerprint than the badge; the joining row is described and any other stays |
| CatchUp.MetadataJoinsIff | src/autoposter/catchup.py:245-315 | A metadata row exactly when writes are on, the item is of a carried library with something to write, and the row is neither absent nor skipped |
| CatchUp.OtherServersStay | src/autoposter/catchup.py:264-315 | Marking touches no other server's row |
| CatchUp.StartOpens | src/autoposter/catchup.py:115-210 | A start goes ahead exactly when the server is known, the scheduler on, nothing says the server is down, its libraries are listed and no run of it is open; what run it then opens, and with which cadence |
| CatchUp.StartRefuses | src/autoposter/catchup.py:115-169 | The reason of a refusal is the first that holds, each with its condition |
| CatchUp.StartAgrees | src/autoposter/catchup.py:171-402 | So does a whole start, presence included |
| CatchUp.EitherOrderMarks | src/autoposter/catchup.py:261-263 | The update then the insert marks each key as specified, and so does the insert then the update |
| CatchUp.MarkRemembers | src/autoposter/catchup.py:271-304 | Marking records what each row said before any catch-up armed it, and marking an armed row again forgets nothing |
| CatchUp.TalliesPartition | src/autoposter/catchup.py:405-445 | Due, done and failed partition exactly the rows a run owns, each with the words it stands for |
| CatchUp.ProgressSurvivesTheClose | src/autoposter/catchup.py:493-523 | After a close, whatever happens to the tables, progress answers the four numbers it answered just before, and the run owns no row |
| CatchUp.ProgressSurvivesTheCancel | src/autoposter/catchup.py:770-828 | The same across a cancel, which restores and releases its rows before it closes |
| CatchUp.CancelCountsAddUp | src/autoposter/catchup.py:775-806 | Every row a cancel finds due is restored or removed |
| CatchUp.CancelVerdict | src/autoposter/catchup.py:821-828 | A cancel closes its run, and no other, as cancelled now, with the tallies and the numbers of its sentence counted before the restore |
| CatchUp.CancelRestores | src/autoposter/catchup.py:775-810 | A cancel puts each unsettled row back to what it said, with its horizon, attempts and deliveries, removes those the run created, keeps settled ones, and leaves no row in the run |
| CatchUp.CancelAgrees | src/autoposter/catchup.py:771-819 | A cancel leaves every cached column right |
| CatchUp.RetryFailedAgrees | src/autoposter/catchup.py:831-866 | So does re-arming a server's failed rows |
| CatchUp.RetryFailedRearms | src/autoposter/catchup.py:831-866 | Exactly the server's failed rows become pending, due now with a fresh budget and in no run, keeping their delivery; no other row is touched |
| CatchUp.StartThenCancelKeepsStatuses | src/autoposter/catchup.py:264-304 | Marking and cancelling gives every row the status it had, and leaves no row that was not there, whatever other servers' runs hold |
| RetryPass.AttemptMoves | src/autoposter/deliveries.py:513-741 | Whatever the servers answer, one attempt settles or fails a pending row or leaves it pending with a horizon and its budget unspent or raised short of the limit, and keeps its run, its remembered status and its deliveries |
| RetryPass.ArtworkOutcomeIff | src/autoposter/deliveries.py:520-741 | For every answer to a pending row, when an artwork attempt leaves it uploaded, skipped, failed or pending, read off the answer and the budget |
| RetryPass.MetadataOutcomeIff | src/autoposter/deliveries.py:763-904 | For every answer that does not raise, when a metadata attempt leaves the row written, skipped, failed or pending |
| RetryPass.AttemptLeaves | src/autoposter/deliveries.py:513-741 | The word counted is the word recorded; the stamp, the fingerprint, the six-hour wait and the attempts an attempt leaves |
| RetryPass.OnlyACommitLands | src/autoposter/deliveries.py:476-490 | A row that raises anywhere or whose commit fails leaves the database as it was, and any other writes its own attempt alone |
| RetryPass.PassMoves | src/autoposter/deliveries.py:492-913 | A pass moves the rows it took, each by one attempt, and touches no other row, run or item |
| RetryPass.PassAgrees | src/autoposter/deliveries.py:492-753 | Every cached column is right after a pass, whichever rows raised or failed to commit |
| RetryPass.FailureIsIsolated | src/autoposter/deliveries.py:456-490 | The database after a pass in which any rows raise or fail to commit is the one the other rows alone would leave |
| RetryPass.DroppingAFailedRowChangesNothing | src/autoposter/deliveries.py:498-513 | Dropping one failing row from the middle of a pass changes nothing |
| RetryPass.ArmedStaysBelowBudget | src/autoposter/deliveries.py:571-586 | Over any number of passes and any answers, a row armed below its budget is pending only strictly below it |
| RetryPass.TransportFailsAtExactlyTheBudget | src/autoposter/deliveries.py:568-588 | With a budget of at least one, straight transport errors fail a fresh row at exactly the pass that spends the budget, with the attempts it then shows |
| RetryPass.MissesNeverFail | src/autoposter/deliveries.py:557-567 | Any number of resolution misses leaves the row pending and its counter untouched |
| RetryPass.IdentityMissesDeliverAtTheBudget | src/autoposter/deliveries.py:619-655 | A stale identity delays a delivery by exactly its budget, and the pass that spends the last of it delivers |
| RetryPass.LedgerBalances | src/autoposter/deliveries.py:436-449 | Per server, due is the rows looked at and the five outcomes exceed it by exactly the rows counted twice, so they balance if and only if there are none |
| RetryPass.LedgerAccounts | src/autoposter/deliveries.py:436-449 | Every counter of a pass counts exactly what was said of the rows under its word, per server and in all |
| RetryPass.HeadAddsUp | src/autoposter/deliveries.py:915-926 | The head sentence adds up to the rows selected plus those counted twice |
| Drain.BatchIsDue | src/autoposter/deliveries.py:387-417 | A batch has no duplicate, and every row of it is due in the scope that was asked for |
| Drain.BatchTakesOnly | src/autoposter/deliveries.py:387-417 | Read off the rows, a batch takes only pending rows whose horizon has come, of the server asked for, and of the run asked for or of none |
| Drain.BatchLeavesOnly | src/autoposter/deliveries.py:397-417 | A due row in that scope is left out only behind 500 others of its table whose horizons came no later |
| Drain.BatchOrder | src/autoposter/deliveries.py:406-415 | At most 500 of each table, artwork before metadata, no row of a table before one with an earlier horizon |
| Drain.IdleTestIsComplete | src/autoposter/catchup.py:660-674 | Over one drain, tallies and spent budget are unchanged exactly when no row of the run changed status or attempts |
| Drain.WorkOnlyFalls | src/autoposter/catchup.py:651-678 | The work a run can still do never rises over a drain, and falls whenever a row moved |
| Drain.DrainMakesProgress | src/autoposter/catchup.py:651-699 | One drain closes the run or leaves it strictly fewer drains to live |
| Drain.EveryRunCloses | src/autoposter/catchup.py:593-610 | With no other writer, every open run closes within a number of drains computed from its rows and its idle count, whatever the servers answer, raise or fail to commit |
| Drain.IdleDrainsIsTheTrailingStretch | src/autoposter/catchup.py:671-678 | `idle_drains` is the length of the trailing stretch of drains that moved nothing |
| Drain.StartedRowsStayBelowBudget | src/autoposter/deliveries.py:571-586 | Every row a start arms stays so through any drains of its run and after its close |
| Drain.WhyADrainCloses | src/autoposter/catchup.py:679-704 | A drain closes a run exactly when nothing is due or it was the last allowed idle one, with which verdict and numbers |
| Drain.CancelLosesADeliveryIff | src/autoposter/catchup.py:777-783 | A cancel loses the record of a delivery exactly when its run created an unsettled row that carries one |
| Drain.MarkCreatesUndelivered | src/autoposter/catchup.py:305-315 | A start creates no such row |
| Drain.DrainsThenCancelLoseNoDelivery | src/autoposter/catchup.py:732-736 | Nor do any drains after it, so a cancel then keeps every delivery and fingerprint |
| Invariants.ArmingMakesSound | alembic/versions/d4b7e1a9c250_settle_background_and_stranded_deliveries.py:51-56 | The arming statement establishes the invariant on any database sound in every other respect, and changes nothing exactly when it already holds |
| Invariants.OrdinaryRecordKeeps | src/autoposter/deliveries.py:208-286 | A record with any flags keeps the invariant and never adds a row to a run |
| Invariants.StartKeeps | src/autoposter/catchup.py:92-402 | A start keeps the invariant and every other run's scope, and its own rows remember what they said |
| Invariants.CancelKeeps | src/autoposter/catchup.py:727-828 | A cancel keeps the invariant and every other run's scope |
| Invariants.SettleKeeps | src/autoposter/catchup.py:669-695 | So does the close of a batch, even one whose counts are stale |
| Protocol.SoundForEver | src/autoposter/catchup.py:92-866 | Every interleaving of starts, drains on any workers (each reading a run once, for its whole turn), cancels, re-arms, presence, records and ordinary passes keeps the invariant |
| Protocol.CachedColumnsAlwaysAgree | src/autoposter/deliveries.py:289-334 | In every reachable state a render with delivery rows caches the fold of those rows |
| Protocol.NoRowIsStranded | src/autoposter/deliveries.py:387-395 | In every reachable state a pending row has a horizon; before it no drainer takes the row, and from then on exactly one does: its run's, or the ordinary pass |
| Protocol.LeavingIsForGood | src/autoposter/deliveries.py:121-151 | A row the pipeline records out of its run never comes back to it, whatever follows: the run does not count it and its cancel does not touch it |
| Protocol.ReadsIff | src/autoposter/catchup.py:572-650 | After any history a free worker can read a run exactly when it is open and its cadence has passed since the instant of the last note on it |
| Protocol.ReadsWaitForTheCadence | src/autoposter/catchup.py:645-678 | After a committed batch no worker reads the run again until its cadence has passed, whatever happens in between, unless the note of a turn begun earlier lands last |
| Protocol.FirstCloseStands | src/autoposter/catchup.py:494-509 | A closed run keeps its first closer's time, verdict, detail and three counts whatever is still in flight |
| Protocol.ClosedForGood | src/autoposter/catchup.py:503-522 | A closed run never owns a row again and serves the same progress for ever, and one server never has two open runs |
| Protocol.ClosesOnce | src/autoposter/catchup.py:503-509 | No two steps of one history close the same run |
| Protocol.StartThenAnythingThenCancel | src/autoposter/catchup.py:738-753 | Start, anything at all, cancel: rows still unsettled in the run regain what they said or vanish if the run made them, settled rows keep their outcome, rows that left are untouched |
| Protocol.NothingIsArmedAtAStart | src/autoposter/catchup.py:159-169 | At a start no row of the server is in any run, so what is remembered is what the row said |
| Protocol.OnlyPresenceReadmits | src/autoposter/deliveries.py:110-119 | No step but presence finding the library carried moves a row off absent |
| CachedStatus.StaysBorn | src/autoposter/db/models.py:112-119 | Whatever the writers do, a render that is no background and has no delivery row reads the `pending` it was born with |
| CachedStatus.TheRowsDecide | src/autoposter/deliveries.py:302-321 | In every state the writers reach, its cached status is the ladder of its delivery rows, or `pending` where there are none |
| CachedStatus.StartThenCancelRestores | src/autoposter/servers/presence.py:189-199 | From every such state, a start that is cancelled leaves every render the cached status presence found it with, those whose rows are all deleted included |
| Dates.DatesNeverMoveBack | src/autoposter/deliveries.py:322-332 | Over any history of every writer with a non-decreasing clock, a render's delivery date never moves back unless a cancel removes a row of it that records a delivery |
| Dates.OnlyACancelMovesDatesBack | src/autoposter/catchup.py:777-783 | A date that has moved back names a cancel whose run had created an unsettled row that recorded a delivery |
| Dates.CancelUnbacksIff | src/autoposter/catchup.py:777-783 | A cancel leaves a date without a delivery as recent exactly when every such delivery is on a row it removes |
| Dates.ACancelCanMoveADateBack | src/autoposter/deliveries.py:322-332 | A history from a database without outcome rows, for any deliverable render, after which the date is earlier than it was |
| Dates.StepFollows | src/autoposter/deliveries.py:161-179 | No step but such a cancel erases or antedates a delivery of a render, and none stamps one but with its own instant |
| LostWrite.ACancelCanLoseAWrite | src/autoposter/catchup.py:777-783 | A history from a database without outcome rows, for any item, after which the row that recorded its write is gone |
| Store.Tables.Record | src/autoposter/deliveries.py:208-286 | A record changes one row as the upsert says and returns the budget, or changes nothing and reports why |
| Store.Tables.Rollup | src/autoposter/deliveries.py:289-334 | The fold over a render's rows writes the ladder and the latest delivery, or keeps the date when there is none |
| Store.Tables.RollupRenders | src/autoposter/servers/presence.py:222-261 | The grouped any-row ladder, written where it differs, is the fold for every chosen render with rows, and the count is the renders changed |
| Store.Tables.StampAbsent | src/autoposter/servers/presence.py:79-128 | One table's insert and its conflict clause leave each key as specified, and report the rows created or changed |
| Store.Tables.Rearm | src/autoposter/servers/presence.py:130-154 | One table's update makes exactly the carried absent rows due, and reports them |
| Store.Tables.StampPresence | src/autoposter/servers/presence.py:77-154 | The four statements compose to presence's rule at each key, and the counts per table are the rows newly absent and due again |
| Store.Tables.ApplyPresence | src/autoposter/servers/presence.py:49-172 | The statements, and the roll-up when an artwork one counted a row, leave exactly the specified tables |
| Store.Tables.ArmTable | src/autoposter/catchup.py:264-304 | One table's update arms exactly the wanted rows that are behind, each remembering what it said |
| Store.Tables.InsertTable | src/autoposter/catchup.py:305-315 | One table's insert creates a row at exactly the wanted keys that have none |
| Store.Tables.MarkBacklog | src/autoposter/catchup.py:212-402 | The statements of each half that is switched on compose to the marking at every key, followed by the roll-up of what was armed |
| Store.Tables.StartCatchUp | src/autoposter/catchup.py:92-402 | A start refuses for the reasons of the code in their order, changing nothing, or leaves exactly the marked tables and the open run |
| Store.Tables.RunTallies | src/autoposter/catchup.py:424-445 | Counting status by status in each table gives the three tallies |
| Store.Tables.AttemptsSpent | src/autoposter/catchup.py:448-462 | The sum of attempts over the run's rows |
| Store.Tables.FinishCatchUp | src/autoposter/catchup.py:465-523 | Only an open run is stamped, closed and released; a closed one is left as it is |
| Store.Tables.CatchUpProgress | src/autoposter/catchup.py:551-558 | Stored numbers for a closed run, live ones otherwise |
| Store.Tables.CancelCatchUp | src/autoposter/catchup.py:727-828 | A cancel refuses exactly when no run is open, or leaves the specified tables and returns the restored and removed counts |
| Store.Tables.RetryFailed | src/autoposter/catchup.py:831-866 | Every failed row of the server is re-armed as an ordinary one, with the counts per table |
| Store.Tables.SelectDue | src/autoposter/deliveries.py:397-417 | The due query returns at most 500 distinct due rows in horizon order, leaving none out for a later one |
| Drainer.PassRun.Deliver | src/autoposter/deliveries.py:520-741 | The branches of one artwork row record what the specification says for every answer |
| Drainer.PassRun.WriteFacts | src/autoposter/deliveries.py:763-904 | The branches of one metadata row, and exactly when a miswired server raises out of it |
| Drainer.PassRun.RunRow | src/autoposter/deliveries.py:510-514 | One row with its savepoint and commit leaves the tables and counters of the specification, rolled back when it raised or did not commit |
| Drainer.PassRun.RetryPendingDeliveries | src/autoposter/deliveries.py:352-939 | A pass takes a due batch of its scope and leaves the tables and counters of running it row by row |
| Drainer.PassRun.Totals | src/autoposter/deliveries.py:915-921 | The failed and skipped totals are the sums over the servers |
| Drainer.CloseBatch | src/autoposter/catchup.py:669-704 | Noting a batch closes the run exactly as specified and says so in its clause |
| Drainer.DrainRun | src/autoposter/catchup.py:635-720 | One run's turn is skipped, fails or drains, and its clause claims a close exactly when the run closed |
| Drainer.ReadyAfterTheCadence | src/autoposter/catchup.py:645-678 | A run drained and left open is ready again exactly when its cadence has passed since |
| Drainer.DrainCatchUps | src/autoposter/catchup.py:572-724 | Every open run gets its turn, in order, whatever befell the runs before it |
| Toggles.ToggleStates | src/autoposter/catchup.py:887-911 | The dictionary holds each named library's effective value and the global one under the empty name |
| Toggles.ScanIsExact | src/autoposter/catchup.py:914-931 | The scan answers for every name there could be, the empty name standing for each unnamed one |
| Toggles.AnswersForAllIff | src/autoposter/catchup.py:903-910 | The scan answers for every library with a name exactly when the entry under the empty name is the global setting |
| Toggles.TurnedOnIsExact | src/autoposter/catchup.py:914-931 | When it is so in both configs, a switch reads as turned on exactly when some library goes effectively from off to on |
| Toggles.TheEmptyNameHidesAFlip | src/autoposter/catchup.py:903-910 | Otherwise a change of the global switch can be missed |
| Toggles.EverOnIsExact | src/autoposter/catchup.py:934-947 | Under the same condition on the switch and its section's gate, it reads as ever on exactly when some library runs with it on and its section not switched off |
| Toggles.DeliveryEnabledIff | src/autoposter/catchup.py:950-971 | A server is filtered out exactly when it is known and every library runs with all of its switches off or masked |
| Toggles.ServersWithChangedLibraries | src/autoposter/catchup.py:974-1009 | The servers returned, once each, are exactly the known ones in both configs whose shape changed or whose switch was turned on |
| Toggles.ChangedIff | src/autoposter/catchup.py:995-1008 | A known server is owed a catch-up exactly when its shape differs or some library goes from off under the old config to on under the new, for its writes or its uploads |
| IdentityMerge.Catalog.MergeInto | alembic/versions/c1d2e3f4a5b6_server_neutral_identity.py:120-147 | One merge fills the survivor's empty slots from the stale row in every child table, repoints parents, and deletes a row nothing hangs off |
| IdentityMerge.Catalog.DeleteItem | alembic/versions/c1d2e3f4a5b6_server_neutral_identity.py:146-147 | Required of the caller: nothing is left for the delete to cascade to |
| IdentityMerge.Catalog.MergeRows | alembic/versions/c1d2e3f4a5b6_server_neutral_identity.py:68-85 | The loop leaves, cell by cell, what the rows read at the start determine |
| IdentityMerge.Catalog.Upgrade | alembic/versions/c1d2e3f4a5b6_server_neutral_identity.py:53-93 | The whole migration, refs backfilled first; every surviving row and no other has its own key written |
| IdentityMerge.OneNewestRowPerKey | alembic/versions/c1d2e3f4a5b6_server_neutral_identity.py:60-85 | The rows left are exactly the newest of each key by (updated_at, id), and no two share a key |
| IdentityMerge.ParentsAreSurvivors | alembic/versions/c1d2e3f4a5b6_server_neutral_identity.py:146-146 | A surviving parent pointer names the survivor of the original parent's cluster, which is still there; nothing else of the row changes |
| IdentityMerge.ChildrenAreTheUnion | alembic/versions/c1d2e3f4a5b6_server_neutral_identity.py:120-145 | Every child table is the newest-wins union over each cluster, and nothing hangs off a deleted row |
| IdentityMerge.RefsAreTheSurvivorsOwn | alembic/versions/c1d2e3f4a5b6_server_neutral_identity.py:125-135 | After the migration the refs are one Plex ref per survivor, holding the rating key the survivor had |
| IdentityMerge.Preview | src/autoposter/migrate_preview/__init__.py:49-69 | The preview's survivors are the first row of each key and its merged rows exactly the later ones |
| IdentityMerge.OneOrder | src/autoposter/migrate_preview/__init__.py:51-51 | Newest first leaves one order, so preview and migration walk the rows alike |
| IdentityMerge.PreviewNamesWhatIsDeleted | src/autoposter/migrate_preview/__init__.py:49-69 | The preview names exactly the rows the migration deletes |
| Overrides.DottedPaths | frontend/src/api/overrides.ts:32-81 | Splitting and joining a dotted path again at every level is the same as splitting it once, for all four functions |
| Overrides.ReadAfterWrite | frontend/src/api/overrides.ts:47-59 | What was written is there and is read back |
| Overrides.WriteAfterWrite | frontend/src/api/overrides.ts:47-59 | The second write alone counts |
| Overrides.WriteBackIff | frontend/src/api/overrides.ts:40-59 | Writing back what was read changes nothing exactly where there was a setting |
| Overrides.ElsewhereUntouched | frontend/src/api/overrides.ts:47-81 | Neither a write nor a removal is seen from an incomparable path |
| Overrides.BelowAWrite | frontend/src/api/overrides.ts:47-59 | Below the path written only the value is seen |
| Overrides.AboveAWrite | frontend/src/api/overrides.ts:53-58 | Above it, the object that was there with the value written in, an empty one standing for whatever was none |
| Overrides.GoneAfterRemoval | frontend/src/api/overrides.ts:61-81 | A removed path is not there |
| Overrides.NoEmptyBranchLeft | frontend/src/api/overrides.ts:76-80 | A removal leaves no empty object on the way to what it removed |
| Overrides.RemovalUndoesWriteIff | frontend/src/api/overrides.ts:47-81 | A removal undoes a write exactly when the path was free and the branches on its way were non-empty objects |
| Overrides.RemovalChangesNothingIff | frontend/src/api/overrides.ts:61-81 | A removal changes nothing exactly when the path was absent and no empty object stood on the way |
| Overrides.UnprunedIff | frontend/src/api/overrides.ts:76-80 | That condition, path by path: no proper prefix reads an empty object |
| Overrides.AnEmptySectionIsPruned | frontend/src/api/overrides.ts:76-80 | A document that removing an absent setting changes |
| Overrides.RedactedIff | frontend/src/api/overrides.ts:96-104 | A path is redacted exactly when the response names it as a string and carries a non-empty marker |
| Overrides.DocumentFromConfig | frontend/src/api/overrides.ts:146-166 | The two loops build the redacted settings |
| Overrides.NoServedValueIsSentBack | frontend/src/api/overrides.ts:140-164 | A redacted path reads the marker, or nothing exactly when it was not served or a path above it was redacted too, for overlapping and repeated paths |
| Overrides.OtherSettingsAreKept | frontend/src/api/overrides.ts:129-145 | A path incomparable with every redacted one reads what was served, unless it is under a provenance key |
| Overrides.OnlySettingsAreSent | frontend/src/api/overrides.ts:106-127 | The document's keys are the served ones without the provenance keys |
| Client.Api.ApiFetch | frontend/src/api/client.ts:101-113 | A call reads a request of its own or the one in flight under its key |
| Client.Api.CleanUp | frontend/src/api/client.ts:106-108 | The request leaves the map if its key still names it |
| Client.EveryRunIsTidy | frontend/src/api/client.ts:73-79 | In every interleaving the map names only unsettled requests, each under its own key |
| Client.KeysTellApart | frontend/src/api/client.ts:103-103 | The key determines token text and path as long as no token holds the separator |
| Client.JoinableIff | frontend/src/api/client.ts:81-90 | A call may share exactly when it gives no option but a method, and that is none or GET in any case |
| Client.JoinsAreSound | frontend/src/api/client.ts:101-112 | A call reads a request it sent with the session's token, or one for the same token text and path that has not settled; only a call with no option but a method that is a GET in any case joins |
| Client.SettledIsNeverReadAgain | frontend/src/api/client.ts:98-100 | No later call reads a request that has settled |
| Client.CleanupRemovesOnlyItsOwn | frontend/src/api/client.ts:106-108 | A cleanup, however late, removes its own entry and no newer one |
| Client.ConcurrentReadsShare | frontend/src/api/client.ts:94-94 | Reads of one path under one token share one request until it is cleaned up or forgotten |
| Client.NothingIsKept | frontend/src/api/client.ts:73-75 | Without a clear, the map holds exactly the shared requests on their way |
| Client.NoTokenAndTheEmptyOneShare | frontend/src/api/client.ts:103-103 | A call under the empty token joins a request sent with none |
| Client.SharedSessionsAreOneIff | frontend/src/api/client.ts:103-103 | Those two are the only distinct sessions that share |
| Client.SentTokenStays | frontend/src/api/client.ts:122-124 | A request carries the token it was sent with for good |
| Client.ALateRefusalDropsAnotherSessionIff | frontend/src/api/client.ts:140-146 | For any history around a call, its refusal drops a session it was not sent in exactly when a session is there and the token has changed since the call |
| Client.WhatDroppedTheSession | frontend/src/api/client.ts:44-50 | A session gone at the end of a history was dropped by a sign-out or a refusal, after which no event set a token |
| Client.ALateRefusalDropsTheNewToken | frontend/src/api/client.ts:140-146 | A 401 of the old session clears the new token, though no call of the new session joined it |
| Ndjson.ReadStream | frontend/src/api/client.ts:296-329 | For every chunking the values delivered are those of the whole text's terminated non-blank lines up to the first that is not JSON, with the outcome and one chunk callback per read |
| Ndjson.ValuesAreTheLines | frontend/src/api/client.ts:302-321 | The values delivered come, in order and once each, from exactly the lines that have one and are not behind a bad line |
| Ndjson.BlankIff | frontend/src/api/client.ts:305-305 | A line is passed over exactly when it is all whitespace |
| Ndjson.NothingHeldBackIff | frontend/src/api/client.ts:302-303 | Text is left unread exactly when it does not end in a newline |
| Ndjson.NoTextIsLost | frontend/src/api/client.ts:302-303 | The lines and what is held back are the whole text |

## Left out

- Deleting and moving items and renders: the service prunes items that are gone with the rows under them, and its scheduled merge drops renders of a stale item and moves others to the survivor. Here items and renders stay, and a render keeps its item, so an attempt on a row whose owner was deleted or moved mid-batch is not modelled.
- Row ids as the tie-break of the due queries: rows with one horizon are taken in any order.
- The words of `detail` columns, log lines and returned sentences; the numbers in them are modelled.
- Other kinds of run and the trimming of run history, which would set `run_id` to null on rows it outlives.
- The upkeep of server refs during a retry, and everything the media servers, the composer and the writers do: their answers are arbitrary per row.
- One clock reading per attempt stands for the readings of a single row's several records.
- `catch_up_progress` picking the newest run of a server: the model answers for any one run.
- Interleaving inside one transaction: each start, cancel, row commit, batch count and batch close is one step, the batch itself is not, and the advisory lock is the atomicity of a start.
- The pipeline's own decisions to re-arm: any record with any flags, followed by its roll-up, is a step.
- An exception from a record or roll-up inside the compose or exemption handler is taken to reach the outer handler, as it does once the statement has aborted the savepoint.
- An unforeseen exception is placed before or after the row's tally, not at each statement.
- The deletion of undelivered background rows in revision d4b7e1a9c250, `servers_never_seen` and `outcome_warnings`: single statements and wording.
- The season and episode walk to a show's provider ids, `identity_key` and step 3 of the identity migration (one delivery per render); the migration's `downgrade`.
- Sorting the rows: the migration and its preview are given them newest first, and that order is proved unique.
- `fieldErrors` and `refusalMessage`: flattening for display.
- Names inherited from `Object.prototype` in the path functions, and the order of keys in an object.
- `structuredClone`, JSON parsing, UTF-8 decoding, the timing of an abort signal within a read, and UTF-16 surrogates: texts are sequences of characters and parsing is an arbitrary function.
