# Pearlarr's engines, modelled and proved

Pearlarr grabs SeaDex releases for Sonarr and Radarr and then waits for them to be imported. Between its HTTP clients
sit several engines that decide what to grab, what to import, what to re-check and when to stop waiting. This project
models those engines and proves what they promise. `dafny verify dfyconfig.toml` checks all of it.

- **The wait and import monitor.** A row is queued, downloading, importing or terminal. Its ready clock bounds a stall,
  follows each landed file and pauses, within a credit cap, while Sonarr is busy. `ReadyClock`, `WaitRows`,
  `ImportLedger`, `PassSpec`, `MonitorPass` and `FinalizeTail` are the objects and their step functions;
  `BoundedWait`, `MonitorBound` and `MonitorRun` bound the wait where polls are timely; `WaitMeasure` and `MonitorEnd`
  end the loop however far apart they come; `ClockLaws` says which poll earns the clock what, and `OutcomeLaws` with
  which label and counter a record ends; `DropEvidence` says on what evidence a record is let go; `TailSpec` shows the
  tail counts nothing twice.
- **The history cursor.** `HistoryCursor` runs the scan, the full-pass gate, the staged store and the close over any
  sequence of runs, and proves at-least-once delivery of the arr's file changes.
- **The same-files reduction.** `ReductionSpec` says what each step makes of a listing, `Reduction` flips the flags in
  place, `DecisionLaws` tells a set's whole decision from its urls, `UrlLaws` what each url is left as, `ReductionLaws`
  proves that the same-files phase loses no publicly obtainable episode, `DedupeLaws` gives the exact cost of the loop
  after it, and `SkipLaws` when a call reports what.
- **The AniBridge index.** `AniBridgeSpec`, `AniBridgeLaws` and `AniBridge` fold the graph into records and reverse
  indexes; `RecordLaws` and `AliasLaws` tell a record's ids, ranges and aliases from its targets; `RowFlattening` writes them as rows; `MappingStore` reads the rows back through joins and regrouping and
  proves that both backings answer alike, and `RepeatedIds` exactly when they do where keys repeat an id. `Unambiguous`
  is the fold they share.
- **The pending record.** `NameFolding`, `PendingRecord`, `PendingClaims` and `PendingRows` are the record's names,
  its status lattice, its claims and its stored form; `PendingMigration`, with `Grouping` and `SortedIds`, folds the
  old per-entry rows into it, `MigrationLaws` proves what that conserves, and `MigrationReadback` says which ids it
  leaves each name; `RowLaws` says field by field what a row reads as.
- **The import plan.** `TrustPolicy`, `EpisodeState` and `ImportPlan` judge each target's file under the claim that
  owns it and plan the import; the plan is shown to be safe, complete and convergent. `JudgeLaws` and `PlanLaws` tell
  every judgment and decision from the record, the claims and the files.
- **Small algorithms.** `FailureStreaks`, `NearTitle`, `DoubledSizes` and `EpisodeRanges`.

An object the program updates in place is a class here, and each of its methods is proved to make the state a step
function says; what the program promises is then proved of that function over whole runs. What the outside world
answers (a poll, a history page, a folder scan, which files landed) is a parameter, so every result holds whatever it
answers. A loop over a dict or a set takes its members in any order.

Where the code and its own words part, the code is followed:

- `reduce_overlapping_downloads` says it de-duplicates urls with identical file-name sets. It compares file-size
  multisets and looks at neither episodes nor tracker, so it can lose a public episode (`DedupeCanLoseAnEpisode`).
  `CallKeepsCoverageIff` says when a call does, and `CallKeepsCoverageWhateverFlagsIff` gives the condition on the
  listing under which no call does.
- The import's verify arm reads as the end of a done import. When every mapped file on disk is a sample it ends the
  same way although the episodes are empty (`ASampleVerifies`); `VerifiedNeedsOnlySamples` shows samples are the only
  way.
- The v4 fold keeps the first row of a name, whatever ids that row holds, so a zero entry of a low AniList id hides
  the ids of a higher one (`ZeroEntryHidesIds`); `HydratedIds` says which ids a name holds in every case. An old row's
  dict is taken as stored, and its claim has to leave zero ids out (pearlarr/cache.py:219, 237).

The wait bound proved is tighter than the credit cap alone suggests: with ready timeout T, COMPLETE polls at most G
apart and done-counts at most N, no row is still active (N + 7)T + (N + 1)G after its first COMPLETE poll. The end of
the monitor needs no G: with download wait W and heavy polls at least s apart, it comes within
(W + N(T + 2s) + 7T + 3s) / s + 2 cycles, however much further apart the polls are.

## Model

| member | source | states |
|---|---|---|
| ReadyClocks.ReadyClock.CreditDeferral | pearlarr/import_wait.py:638-645 | The deferral of the live clock is the step `ClockLaws.PollMovesClock` tells and `BoundedWait.StepIsCredible` bounds |
| ReadyClocks.ReadyClock.NoteProgress | pearlarr/import_wait.py:647-657 | A determinate count that rises re-anchors the clock, and nothing else does |
| ReadyClocks.ReadyClock.CanDefer | pearlarr/import_wait.py:628-636 | Credit is earned below the cap only, and by a fresh command only the first time |
| ReadyClocks.ReadyClock.MarkPoll | pearlarr/import_wait.py:617-621 | Each heavy poll leaves the interval since the one before as the credit on offer |
| ClockLaws.PollMovesClock | pearlarr/import_wait.py:884-950 | A landing re-anchors the clock; without one an import in flight or a busy Sonarr earns the interval since the last poll, up to six timeouts in all, a command issued at most that, and nothing else anything |
| ClockLaws.FirstPollStartsClock | pearlarr/import_wait.py:884-950 | The first COMPLETE poll anchors the clock at itself with nothing earned |
| ClockLaws.IssuedEarnsOnce | pearlarr/import_wait.py:628-645 | Over any events, once a poll that issued a command without a landing kept the row, no later one raises its credit or moves its anchor, and one past the timeout since the anchor ends it |
| ClockLaws.FirstIssueEarns | pearlarr/import_wait.py:628-645 | The first command issued does earn the interval |
| ClockLaws.PollEnds | pearlarr/import_wait.py:884-950 | Where each reading of a poll leaves a row, and under which label a row given up |
| ClockLaws.RefreshEnds | pearlarr/import_wait.py:952-978 | Where a fast-lane reading leaves it |
| BoundedWait.StepIsCredible | pearlarr/import_wait.py:617-657 | No poll or refresh lets the credit pass the cap, the anchor step back or the anchor pass now |
| BoundedWait.RunIsCredible | pearlarr/import_wait.py:884-978 | The same over every sequence of polls and refreshes |
| BoundedWait.HeldAfterPoll | pearlarr/import_wait.py:913-950 | A poll that keeps its row leaves the slack below the timeout, but for one gap at the poll that exhausts the cap |
| BoundedWait.RunIsHeld | pearlarr/import_wait.py:884-978 | That invariant over every paced sequence, with the clock's fields tied to the trace's own first and last COMPLETE polls |
| BoundedWait.BoundedWaitTheorem | pearlarr/import_wait.py:594-657 | Whatever the mix of deferrals, landings and refreshes, no COMPLETE poll leaves a row active (N + 7)T + (N + 1)G after its first one |
| BoundedWait.ExhaustedOnlyAfterAStall | pearlarr/import_wait.py:623-657 | A row is given up as exhausted only after a whole ready timeout without a landing |
| WaitMeasure.PollTakesAStep | pearlarr/import_wait.py:884-950 | Every heavy poll that keeps its row active takes at least a step from what the row's wait has left, however late it comes |
| WaitMeasure.RefreshGivesNothing | pearlarr/import_wait.py:952-978 | A fast-lane refresh gives none of it back |
| WaitMeasure.LeftIsBounded | pearlarr/import_wait.py:594-656 | What is left is never negative nor more than a whole fixed by the config, the step and the largest count |
| MonitorBound.WatchedAfterPoll | pearlarr/import_wait.py:884-950 | On timely polls a heavy poll keeps a row's download wait and clock within the pass's bounds |
| MonitorBound.WatchedRowIsYoung | pearlarr/import_wait.py:884-950 | On timely polls a row still active was last polled within a fixed time of the pass's start |
| MonitorEnd.CyclesAreBounded | pearlarr/import_wait.py:462-469 | A row still active has seen fewer cycles than a bound that no poll interval enters |
| MonitorBound.CycleMovesOn | pearlarr/import_wait.py:828-833 | A heavy-poll cycle conserves the pass and keeps every row watched |
| MonitorRuns.WaitIsWatched | pearlarr/import_wait.py:532-556 | So does a whole wait of fast-lane refreshes |
| MonitorRuns.IdleWaits | pearlarr/import_wait.py:547-552 | Giving a wait up once no row is active leaves what its other slices would |
| MonitorRuns.RunConserves | pearlarr/import_wait.py:462-469 | Every run is conserved, whatever its instants |
| MonitorRuns.RunIsWatched | pearlarr/import_wait.py:462-469 | On timely polls every run keeps its rows watched, from a first poll at the pass's own start on |
| MonitorEnd.BusyRunIsEarly | pearlarr/import_wait.py:462-469 | A run with an active row is short of the cycle bound, however far apart its polls come |
| MonitorEnd.IdleRunIsFinished | pearlarr/import_wait.py:462-471 | A run without one is conserved and has a result for each row, whatever its instants |
| MonitorPasses.MonitorRow.Advance | pearlarr/import_wait.py:884-911 | One poll moves the row through the download arms as the step function says |
| MonitorPasses.MonitorRow.DriveImport | pearlarr/import_wait.py:913-950 | A COMPLETE poll moves clock and phase in the source's order of outcomes |
| MonitorPasses.MonitorRow.Refresh | pearlarr/import_wait.py:959-977 | A determinate reading re-anchors, and full files promote the row |
| MonitorPasses.MonitorPass.Settle | pearlarr/import_wait.py:852-867 | A terminal frame resolves the record in the books and adds exactly its result row |
| MonitorPasses.MonitorPass.RunCycle | pearlarr/import_wait.py:828-833 | The cycle over the live rows is the fold of their steps |
| MonitorPasses.MonitorPass.RefreshProgress | pearlarr/import_wait.py:952-978 | So is the fast-lane refresh |
| MonitorPasses.MonitorPass.RetireActive | pearlarr/import_wait.py:869-882 | And the graduation of the rows still active |
| MonitorPasses.MonitorPass.RunCheck | pearlarr/import_wait.py:835-840 | The check pass is a cycle, a refresh and a graduation |
| MonitorPasses.MonitorPass.ProgressWait | pearlarr/import_wait.py:532-556 | A wait refreshes while a row is active and slices remain, and stops at the first of the two |
| MonitorPasses.MonitorPass.RunMonitor | pearlarr/import_wait.py:452-471 | The monitor ends, however far apart its polls come, with no row active, a result for each row, every record where its outcome says, and a pass that is the run the laws speak of |
| ImportLedger.Ledger.Retire | pearlarr/import_wait.py:162-181 | A verified import leaves the store and run list, or stays flagged for cleanup if an effect failed |
| ImportLedger.Ledger.Resolve | pearlarr/import_wait.py:376-392 | A terminal outcome's whole effect on the store, the run list, the kept set and the states |
| PassSpec.MoveConserves | pearlarr/import_wait.py:376-392 | Any step keeps the books, results and rows agreed and spares other records; a record leaves the store exactly on MISSING or on IMPORTED with clean effects |
| PassSpec.CycleConserves | pearlarr/import_wait.py:828-833 | A cycle conserves, freezes terminal rows and only appends results |
| PassSpec.RefreshConserves | pearlarr/import_wait.py:952-978 | So does a refresh |
| PassSpec.RetireConserves | pearlarr/import_wait.py:869-882 | So does the graduation |
| PassSpec.ResultsAndActiveAreAllRows | pearlarr/import_wait.py:822-826 | Results owed and active rows together count every row |
| PassSpec.CheckEndsConserved | pearlarr/import_wait.py:835-840 | The check ends conserved, with no row active and one result for each |
| OutcomeLaws.GraduatesAs | pearlarr/import_wait.py:869-882 | The label a check gives a row its one cycle left active |
| OutcomeLaws.CheckedRow | pearlarr/import_wait.py:835-840 | A check polls each row once, refreshes it if still active and graduates it if it still is |
| OutcomeLaws.CheckLeaves | pearlarr/manual_import.py:483-497 | Each row of a check has its one result, and a carried-over record that stays has the counter of its outcome |
| OutcomeLaws.OutcomeResolves | pearlarr/import_wait.py:376-396 | What an outcome does to store, run list, states and kept records |
| DropEvidence.CycleDropsIff | pearlarr/import_wait.py:884-950 | A cycle drops a record exactly when its active row's own poll finds the torrent gone, or its files in and cleaned up, whatever the other rows do |
| DropEvidence.RefreshAllDropsIff | pearlarr/import_wait.py:952-978 | A refresh drops one exactly when that row's running import shows all its files in and cleaned up |
| DropEvidence.RetireDropsNothing | pearlarr/import_wait.py:869-882 | Graduating drops no record |
| DropEvidence.CheckDropsIff | pearlarr/import_wait.py:835-840 | So the whole check lets go of a record exactly on that row's poll or bar |
| DropEvidence.RunLives | pearlarr/import_wait.py:462-469 | Through a whole monitor run each row moves, and its record stays or goes, by its own polls and bars alone |
| DropEvidence.MonitorDropsOnEvidence | pearlarr/import_wait.py:462-469 | A record a monitor run let go of had a poll or bar of its own row that found the torrent gone, or the files in and cleaned up |
| FinalizeTail.ImportWaitManager.HealOne | pearlarr/import_wait.py:275-310 | What healing one flagged record leaves of the books |
| FinalizeTail.ImportWaitManager.HealFlagged | pearlarr/import_wait.py:183-194 | The heal pass is the fold of its records' heals |
| FinalizeTail.ImportWaitManager.CheckOnce | pearlarr/import_wait.py:473-489 | The deferred check over the carried-over records, its results and the books it leaves |
| FinalizeTail.ImportWaitManager.Tally | pearlarr/import_wait.py:430-445 | The counters are the sizes of the records waiting as queued and as downloaded |
| FinalizeTail.ImportWaitManager.FinalizeDeferred | pearlarr/run_loop.py:299-315 | The deferred tail's totals are the sizes of disjoint sets of records |
| TailSpec.HealKeepsNoneObserved | pearlarr/import_wait.py:275-310 | A heal leaves no record to import that was already counted as imported |
| OutcomeLaws.HealsOnEvidence | pearlarr/import_wait.py:275-315 | No heal effect fires without evidence: a flagged record goes, stays flagged, or is taken back to importing exactly on its own reading, and else nothing changes |
| OutcomeLaws.TalliesAre | pearlarr/import_wait.py:430-445 | Which records are healed and which the tally counts as queued, downloaded or imported |
| TailSpec.StatesAfterCheck | pearlarr/import_wait.py:473-489 | A record the check left pending was neither counted nor noted as imported |
| TailSpec.CountedAtMostOnce | pearlarr/run_loop.py:302-315 | Through heal, check and tally no record adds to two counters, and a flagged one to neither queued nor downloaded |
| HistoryCursor.ArrActivityMonitor.Scan | pearlarr/arr_activity.py:95-138 | What a scan marks and the checkpoint it stashes, for every window and answer, a failed fetch included |
| HistoryCursor.ArrActivityMonitor.CommitCheckpoint | pearlarr/arr_activity.py:159-164 | The stash is staged, and nothing else changes |
| HistoryCursor.CacheStore.Save | pearlarr/cache.py:571-582 | A save commits what is staged unless the run is a preview |
| HistoryCursor.RunSync | pearlarr/run_loop.py:206-229 | A run for one item, or that held titles back, saw an outage, was a preview, was stopped, or could not read the history leaves the committed cursor alone; any other takes it to the newest record it read, unless that one is undated |
| HistoryCursor.WindowIs | pearlarr/arr_activity.py:140-157 | The query window from the cursor, the clock and the lookback floor, and when it rescans all |
| HistoryCursor.TouchedIff | pearlarr/arr_activity.py:126-138 | An item is marked exactly if a record the scan reads imported a file of it, or deleted one not for an upgrade |
| HistoryCursor.LoggedRunsActed | pearlarr/run_loop.py:206-229 | The runs the laws count as having acted are exactly those whole-library ones that held nothing back, saw no outage, committed and read the history |
| HistoryCursor.WindowReachesTheRest | pearlarr/arr_activity.py:140-157 | The next query window reaches every later record, under the overlap the arr's dates keep |
| HistoryCursor.CommittingRunHandles | pearlarr/arr_activity.py:126-138 | A committing run marks every new file change up to the cursor it commits, or rescans all |
| HistoryCursor.StepKeepsCovered | pearlarr/run_loop.py:206-229 | Every run keeps each record up to the stored id handled, and the id only grows |
| HistoryCursor.AtLeastOnce | pearlarr/run_loop.py:206-229 | Over every sequence of runs, each file change with an item id up to the stored cursor was marked dirty or rescanned by a committed full pass, or predates the first window |
| HistoryCursor.HealthyRunCatchesUp | pearlarr/arr_activity.py:95-138 | One healthy run handles everything seen so far |
| HistoryCursor.RunHandlesIff | pearlarr/arr_activity.py:115-138 | On any history, a committing run handles a record new to it exactly when its window was clamped or is its first, or a new file change of the item is dated within the sent query |
| HistoryCursor.LateRecordIsLost | pearlarr/arr_activity.py:140-157 | The overlap is needed: a record dated further back than it is skipped for good |
| ReductionSpec.SetsPartition | pearlarr/planner.py:145-180 | The same-files sets hold every group exactly once |
| ReductionSpec.SetsAreKeyClasses | pearlarr/planner.py:145-180 | Two groups share a set exactly when their coverage keys are equal |
| UrlLaws.SetsInOrder | pearlarr/planner.py:145-180 | Sets and their members come in listing order |
| UrlLaws.SharesASetIff | pearlarr/planner.py:145-180 | Two groups share a set exactly when neither was parsed, both place the same episodes, or they are one group |
| DecisionLaws.DecisionIs | pearlarr/planner.py:1050-1163 | The whole decision in url fields: the first group that stays whole, else, where a copy is held wrong, the first unflagged non-fallback group with a public url, a whole one before any other, else the first flagged group with a public url, else nothing |
| ReductionLaws.DecisionFacts | pearlarr/planner.py:1050-1163 | What the pick of each decision has: a promoted group no url flagged, none a fallback's and one public, a kept one a flag and a public url |
| ReductionLaws.AtMostOneStays | pearlarr/planner.py:1172-1187 | Before the rescue at most one group of a set stays flagged |
| ReductionLaws.NewGrabIsAPromotion | pearlarr/planner.py:1189-1213 | A newly flagged url is a public url of a group with no url flagged and none a fallback's, in a set where a flagged group has an upgrade |
| UrlLaws.DecisionLeaves | pearlarr/planner.py:1165-1213 | What the decision leaves of each url of the set, flag by flag |
| UrlLaws.DroppedInOrder | pearlarr/planner.py:1165-1187 | What is dropped is recorded group by group, url by url |
| UrlLaws.RescueTakesInOrder | pearlarr/planner.py:1215-1249 | The rescue re-flags a dropped public url, in turn, exactly if no flagged public url of the set carries some episode of it by then |
| ReductionLaws.NoPrivateGrabStays | pearlarr/planner.py:1050-1187 | If some flagged group with a public url is wholly addable, no private url of the set stays flagged |
| ReductionLaws.RescueAddsAKey | pearlarr/planner.py:1215-1251 | Each rescued url adds an episode no earlier survivor carried |
| ReductionLaws.SetKeepsCoverage | pearlarr/planner.py:1050-1251 | An episode some flagged public url of a set carried is still carried by one |
| ReductionLaws.OtherSetsUntouched | pearlarr/planner.py:1019-1027 | A set's reduction leaves every url of other sets as it was |
| ReductionLaws.CoveragePreserved | pearlarr/planner.py:1019-1027 | After the whole phase every such episode is still carried within its own set |
| DedupeLaws.DedupeKeepsCoverageIff | pearlarr/planner.py:1028-1046 | The last loop keeps a set's coverage exactly when what the set's repeats carry, its first urls carry too |
| DedupeLaws.CallKeepsCoverageIff | pearlarr/planner.py:1019-1046 | Through the whole call a same-files set keeps every episode it carried exactly when each of them a repeat carries as the loop starts, a first url of the set carries |
| DedupeLaws.CoveredCallKeepsCoverage | pearlarr/planner.py:1019-1046 | The call keeps every episode within its set where each public url is covered by every earlier url of its group with its files |
| DedupeLaws.UncoveredUrlIsLost | pearlarr/planner.py:1036-1046 | Where one is not, flagging just the two loses its episode |
| DedupeLaws.CallKeepsCoverageWhateverFlagsIff | pearlarr/planner.py:1019-1046 | So the call keeps coverage whichever urls of a listing are flagged if and only if earlier urls cover in every group, a condition that reads no flag |
| DedupeLaws.DedupeKeepsCoverageOfCopies | pearlarr/planner.py:1028-1036 | In particular the call keeps it where equal sizes mean equal releases |
| DedupeLaws.DedupeCanLoseAnEpisode | pearlarr/planner.py:1036-1046 | The call loses the episode of a group that lists one release on a private tracker and then on a public one |
| UrlLaws.DedupeLeaves | pearlarr/planner.py:1036-1046 | The last loop lets go of a flagged url with sizes exactly if an earlier flagged one of its group has the same |
| UrlLaws.HandPickedIsLeft | pearlarr/planner.py:1014-1019 | A hand-picked listing is left alone and nothing reported of it |
| ReductionLaws.SkipMeansNothingPublic | pearlarr/planner.py:1050-1163 | A reported skip had nothing public flagged, and nothing of it stays flagged |
| Reduction.UrlItem.Flag | pearlarr/seadex_types.py:150-155 | Flagging sets the download and, on request, the upgrade |
| Reduction.UrlItem.Unflag | pearlarr/seadex_types.py:157-162 | Unflagging clears both |
| Reduction.SameFilesSets | pearlarr/planner.py:145-180 | The dict of sets is the partition of the laws |
| Reduction.DownloadPlanner.RescueDroppedCoverage | pearlarr/planner.py:1215-1251 | The in-place rescue is the rescue of the laws |
| Reduction.DownloadPlanner.PromotePublicAlternative | pearlarr/planner.py:1189-1213 | The in-place promotion flags the public urls of the first promotable group, an all-public one first |
| Reduction.DownloadPlanner.ReducePrivateOnly | pearlarr/planner.py:1050-1163 | A set with no public flag ends as the decision says, with its notices and every position it drops |
| Reduction.DownloadPlanner.ReduceToOne | pearlarr/planner.py:1050-1187 | So does a set with a public flag |
| Reduction.DownloadPlanner.ReduceSet | pearlarr/planner.py:1019-1027 | One set's in-place turn is reduction then rescue, and its skips and notices are those of the decision |
| Reduction.DownloadPlanner.ReduceOverlappingDownloads | pearlarr/planner.py:980-1048 | The whole in-place call, hand-picked releases left alone: its listing and the skips it returns are those the laws speak of |
| DecisionLaws.TurnReports | pearlarr/planner.py:1050-1163 | What a set's turn reports, in url fields: a skip with its groups, a stale copy left, a fallback found owned |
| DecisionLaws.TurnNotes | pearlarr/planner.py:1050-1163 | The one notice a turn adds, its groups, reason and severity |
| SkipLaws.TurnSkipsIff | pearlarr/planner.py:1050-1163 | A set's turn reports each exactly when it holds, and takes none back |
| SkipLaws.CallSkipsIff | pearlarr/planner.py:1014-1048 | A call reports a skip, a stale copy, an owned fallback exactly when some same-files set of its input is held back, leaves one, has one |
| Unambiguous.KeptExactly | pearlarr/seadex_types.py:259-267 | A key is kept with a value exactly when every pair of it has that value |
| Unambiguous.FoldUnambiguous | pearlarr/seadex_types.py:259-267 | The loop computes that |
| AniBridgeLaws.ParseIsSound | pearlarr/anibridge.py:381-407 | In every parsed index, repeated keys included, each indexed id has its record, no slot is empty and a record is filed under each of its shows |
| AniBridgeLaws.ParseIsConsistent | pearlarr/anibridge.py:381-407 | Where AniList keys read as distinct ids, an id is filed only under shows its record maps |
| AniBridgeLaws.PairedNumberIsHeld | pearlarr/anibridge.py:190-215 | An aliased special lies in the ranges its own map folds to |
| RecordLaws.IdsAre | pearlarr/anibridge.py:431-481 | The first AniDB id named wins; the movie and IMDb ids are those named, in order |
| RecordLaws.EntryTakesTheFirst | pearlarr/anibridge.py:512-553 | A lookup shows a record's first movie and IMDb ids, and its seasons and aliases of the show |
| RecordLaws.SeasonsAre | pearlarr/anibridge.py:431-481 | A season's ranges are the readable ones of its own targets, in order, and a show is there exactly if a target names it |
| AliasLaws.AliasIff | pearlarr/anibridge.py:190-215 | A TMDB number is aliased to a TVDB one exactly if they are at one place of two bounded texts as wide as their source range, and the number nowhere pairs with another; the aliases are of the TMDB target's show |
| AliasLaws.NoAliases | pearlarr/anibridge.py:190-215 | Without exactly one season-0 target on each provider, both with a show, there are none |
| AliasLaws.SurvivingAliasIff | pearlarr/anibridge.py:409-429 | The filter leaves exactly the aliases whose number no other record of the show holds in season 0 |
| AniBridgeLaws.AliasIsHeldByItsOwner | pearlarr/anibridge.py:190-215 | An unfiltered alias lands in its owner's season 0 |
| AniBridgeLaws.AliasAvoidsOtherSeasons | pearlarr/anibridge.py:409-429 | A surviving alias lands in no other entry's season 0 of the show |
| AniBridgeLaws.AliasesAreDisjoint | pearlarr/anibridge.py:409-429 | No special of a show is the alias target of two entries |
| AniBridges.FilterReadsShowsOnly | pearlarr/anibridge.py:404-429 | The filter's answer for a record does not depend on which records were filtered before it |
| AniBridges.AniBridge.constructor | pearlarr/anibridge.py:251-276 | A graph-backed view is the parse of its graph |
| AniBridges.AniBridge.AddTargetTo | pearlarr/anibridge.py:431-482 | One target's effect on the record and the reverse indexes |
| AniBridges.AniBridge.FilterRecords | pearlarr/anibridge.py:404-407 | Filtering the records in any order gives the one filtered index |
| AniBridges.AniBridge.UnsharedAliasing | pearlarr/anibridge.py:409-429 | The loop keeps exactly the aliases no other record of the show claims |
| AniBridges.AniBridge.AliasingFor | pearlarr/anibridge.py:190-215 | The pairing loop gives the record's aliasing |
| AniBridges.AniBridge.ToRows | pearlarr/anibridge.py:308-356 | Whatever order the dicts are gone over in, the rows are faithful to the view: entries once, xrefs once, ranges and aliases regrouping to it, empty seasons included |
| RowFlattening.SeasonRegroups | pearlarr/anibridge.py:331-338 | A season's rows, or its NULL marker, regroup to its ranges |
| MappingStore.JoinGivesItsRows | pearlarr/mapping_store.py:505-528 | The join returns a record's own rows, in order, exactly when one xref row maps it |
| MappingStore.SqlAnswer | pearlarr/anibridge.py:555-597 | What a SQL lookup answers for each id, over faithful rows |
| MappingStore.ShowLookupAgreesIff | pearlarr/anibridge.py:599-608 | The two backings answer a show lookup alike exactly when every id filed under the show still maps it |
| MappingStore.MovieLookupsAgree | pearlarr/anibridge.py:610-624 | The movie and IMDb lookups always agree |
| MappingStore.TvdbIdSetAgrees | pearlarr/mapping_store.py:549-563 | The distinct query gives the graph view's id set |
| MappingStore.LengthAgrees | pearlarr/mapping_store.py:565-568 | The count query gives the graph view's length |
| MappingStore.BackingsAgree | pearlarr/anibridge.py:512-624 | For every graph of distinct ids both backings answer every lookup, the three id sets and the length alike |
| MappingStore.RepeatedIdSplitsTheBackings | pearlarr/anibridge.py:402-402 | Two keys of one id make the show lookups differ |
| RepeatedIds.FiledIff | pearlarr/anibridge.py:381-407 | An id is filed under exactly the shows any of its keys names |
| RepeatedIds.FiledMoviesIff | pearlarr/anibridge.py:474-481 | And under exactly the movies and IMDb ids any of its keys names |
| RepeatedIds.RecordIsTheLast | pearlarr/anibridge.py:381-407 | And its record is its last key's |
| RepeatedIds.ConsistentIff | pearlarr/anibridge.py:381-407 | So ids stay filed only under shows their records map if and only if each id's last key names every show of its keys |
| RepeatedIds.ShowAgreesIff | pearlarr/anibridge.py:599-608 | On any graph one show's lookups agree if and only if each id with a key naming the show names it in its last |
| RepeatedIds.BackingsAgreeIff | pearlarr/anibridge.py:512-624 | On any graph all show lookups agree if and only if each id's last key names every show of its keys; the other lookups, the id sets and the length agree on every graph |
| NameFolding.NormalizeMap | pearlarr/manual_import.py:606-617 | The loop keeps real ids and the first of two names with one leaf |
| NameFolding.JoinedPlaces | pearlarr/manual_import.py:630-633 | A joined map holds the base's names and every added leaf with a real id |
| PendingRecords.FoldIsWellFormed | pearlarr/manual_import.py:905-921 | A built record's names are settled, each once and in one place |
| PendingRecords.WellFormedStays | pearlarr/manual_import.py:905-921 | Building again changes nothing |
| PendingRecords.OneStatus | pearlarr/manual_import.py:905-921 | A name has exactly one status |
| PendingRecords.WithLifts | pearlarr/manual_import.py:1005-1029 | A change lifts a name to the status it asks for, if higher, and never lowers one |
| PendingRecords.StatusIsTheHighestAsked | pearlarr/manual_import.py:1005-1029 | After any changes a name's status is the highest of its first and all asked for |
| PendingRecords.PartitionIgnoresOrder | pearlarr/manual_import.py:1005-1029 | The final partition does not depend on the order of the changes |
| PendingRecords.MappedIdsStay | pearlarr/manual_import.py:1005-1011 | A mapped name's ids never change |
| PendingClaims.JoinClaim | pearlarr/manual_import.py:1031-1044 | The loop replaces the entry's claim, or appends it |
| PendingClaims.ClaimsAreTheHistory | pearlarr/manual_import.py:1031-1044 | After any claims the record has one for each entry, in first-claim order, with the latest window and the first clock and preowned ids, its cleanup flag cleared and nothing else changed |
| PendingRows.RoundTrip | pearlarr/manual_import.py:1046-1088 | A record read back from its row is itself exactly when its claims carry the guards the table holds |
| RowLaws.RecordKeysRead | pearlarr/manual_import.py:1065-1100 | What each key of a row reads as |
| RowLaws.ClaimKeysRead | pearlarr/manual_import.py:831-858 | What each key of a claim reads as, a missing one included |
| RowLaws.MissingKeysRead | pearlarr/manual_import.py:1065-1100 | A row without keys reads as a record of nothing |
| RowLaws.SizesFold | pearlarr/manual_import.py:620-627 | A folded name has a size exactly if a spelling has it and none another |
| PendingRows.HydrationSettles | pearlarr/manual_import.py:1065-1088 | A hydrated record survives being saved and read again |
| PendingRows.LegacyRowAccounts | pearlarr/manual_import.py:1091-1101 | A row without the hand-import key accounts for every listed file, but for one whose only map entries hold no real id |
| PendingRows.LiveGuardsSufficeIff | pearlarr/cache.py:862-873 | The live-claim guard read hydrates as the whole table would, unless a claim without an entry id reads a row no claim makes live |
| PendingRows.WrittenRowsHydrateAlike | pearlarr/pending_records.py:61-76 | So rows the record wrote always hydrate alike |
| PendingMigration.FoldV4Rows | pearlarr/cache.py:253-276 | The fold's loops give the folded row |
| PendingMigration.Migrate | pearlarr/cache.py:279-299 | Every torrent of the table gets the fold of its rows, and no other record appears |
| MigrationLaws.EachRowIsOneClaim | pearlarr/cache.py:279-299 | Each old row becomes exactly one claim of its torrent's record |
| PendingMigration.DerivedWindow | pearlarr/cache.py:228-250 | A legacy row's window holds each real id of its map and list once, in order |
| RowLaws.OldClaimHolds | pearlarr/cache.py:228-250 | The claim of an old row holds its facts, and its window or the one derived |
| RowLaws.FoldedClaims | pearlarr/cache.py:253-276 | The folded record has the rows' claims in their order |
| RowLaws.ExclusionsInOrder | pearlarr/cache.py:264-264 | Exclusions are gathered row after row |
| MigrationLaws.FoldConserves | pearlarr/cache.py:253-276 | Every mapped name keeps the ids of the row lowest by the table's al_id column, the release facts are the lowest row's, and cleanup is flagged exactly if all rows were |
| MigrationLaws.ExclusionsAreConserved | pearlarr/cache.py:264-264 | The exclusions are the rows' that no row maps, each once |
| MigrationLaws.ClocksAreConserved | pearlarr/manual_import.py:1117-1122 | The record expires by the newest parseable stamp of its rows and is born with the oldest |
| MigrationReadback.HydratedKeepsIff | pearlarr/cache.py:260-263 | Read back, a name stays mapped exactly when the first row of one of its spellings gives it a real id |
| MigrationReadback.HydratedIds | pearlarr/cache.py:260-263 | And it holds the real ids of the first entry, over the rows in order, that gives it some under a spelling not seen before |
| MigrationReadback.FirstGivenIs | pearlarr/manual_import.py:606-617 | Which entry that is, two spellings of one leaf included |
| MigrationReadback.ZeroEntryHidesIds | pearlarr/cache.py:260-263 | A zero entry of a low column id hides the real ids of a higher one |
| Grouping.Group | pearlarr/cache.py:284-288 | The dict of lists holds each key's rows in order |
| TrustPolicies.TrustedGroups | pearlarr/episode_state.py:319-339 | The loop's policy in closed form, whatever the order of the votes: the own group at the sizes its listings give it, every other pick or fresh sibling by its name |
| EpisodeStates.RecommendedIff | pearlarr/episode_state.py:184-222 | A target is done exactly when it holds a file of a trusted group at a verified size, or the untagged file recorded at the grab, that is not another of the torrent's files |
| JudgeLaws.PolicyIs | pearlarr/episode_state.py:319-339 | Whom the policy trusts at what size: the own group at the sizes it and its namesakes list, entry picks and unstale namesakes by name |
| JudgeLaws.JudgedAs | pearlarr/episode_state.py:184-222 | Every status exactly, and a copy of our own exactly if the episode's file has one of the torrent's sizes |
| JudgeLaws.NamedByItsClaim | pearlarr/episode_state.py:277-300 | An episode a window names is judged by that claim's entry, at its latest |
| JudgeLaws.UnnamedByItsOneClaim | pearlarr/episode_state.py:237-246 | One no window names is judged on the first claimed series that lists it, by the series' one claim without a window |
| JudgeLaws.UnnamedByItsSeries | pearlarr/episode_state.py:277-300 | Or, without just one, by that of all the series' claims |
| JudgeLaws.UnlistedByNothing | pearlarr/episode_state.py:277-300 | One no series lists is judged by nothing |
| JudgeLaws.MergedEvidence | pearlarr/manual_import.py:965-980 | The evidence of a series' claims as one |
| PlanLaws.IntendedIs | pearlarr/manual_import.py:597-604 | An episode is meant to have the one size its mapped files list |
| EpisodeStates.OwnEvidenceOnly | pearlarr/episode_state.py:274-298 | However another claim's evidence changes, an episode a scoped claim names keeps its judgment |
| ImportPlans.CandidateFiles | pearlarr/import_files.py:53-73 | A folded name holds the last scanned file with a path and that name, and no name else holds any |
| ImportPlans.PlanImportFiles | pearlarr/import_files.py:172-210 | One decision for each map entry, in its order |
| ImportPlans.ImportIdsAre | pearlarr/episode_state.py:118-133 | A file is posted onto its needing episodes and those holding an own copy, or onto none |
| ImportPlans.PlanIsExact | pearlarr/import_files.py:172-210 | A file is imported exactly when it is on disk, no sample and needed; it goes onto exactly its episodes that need it or hold a file at one of the torrent's own sizes |
| PlanLaws.DecisionIs | pearlarr/import_files.py:172-210 | Every action of the plan, its path, and its episodes in the map's order |
| PlanLaws.RoutedPosting | pearlarr/sonarr_import.py:147-160 | A file is posted to the series its first episode is routed to |
| PlanLaws.UnroutedPosting | pearlarr/sonarr_import.py:147-160 | And one routed nowhere to the series all the record's claims are on, if there is one |
| PlanLaws.VerdictIs | pearlarr/sonarr_import.py:520-580 | When a poll is done, waits or posts |
| ImportPlans.OneFileIntends | pearlarr/manual_import.py:597-603 | An episode one listed file maps is judged against that file's size |
| ImportPlans.PostedIsRecommended | pearlarr/episode_state.py:200-222 | A posted file that landed at its listed size makes its episode done |
| ImportPlans.ReplanImportsIff | pearlarr/import_files.py:172-210 | After the landing a file is imported again exactly when it is still on disk and some episode of it is in no index that judges it |
| ImportPlans.ReplanIsQuiet | pearlarr/import_files.py:172-210 | Where the judging indexes hold every mapped episode, a re-plan imports nothing |
| ImportPlans.LandedImportVerifies | pearlarr/episode_state.py:99-105 | And the record's targets are then all done, exactly then |
| ImportPlans.VerifiedIff | pearlarr/sonarr_import.py:520-596 | A poll verifies the record exactly when its targets are done, or every mapped file is on disk and a sample or unneeded |
| ImportPlans.VerifiedNeedsOnlySamples | pearlarr/sonarr_import.py:520-596 | A verified record still needs only episodes whose files are samples |
| ImportPlans.ASampleVerifies | pearlarr/sonarr_import.py:588-591 | It can: a record whose one file is a sample on disk verifies with its claimed episode empty |
| Streaks.FailureStreaks.Fail | pearlarr/arr_http.py:473-507 | What a failure leaves of the ledger, and whether it warns, re-warns or stays quiet |
| Streaks.FailureStreaks.Recover | pearlarr/arr_http.py:509-530 | A recovery closes exactly its template's streaks and announces their total and the age of the oldest |
| Streaks.FailureStreaks.Combined | pearlarr/arr_http.py:527-528 | The total and oldest failure, taken in any order |
| Streaks.FailuresAreConserved | pearlarr/arr_http.py:473-530 | Over every trace a template's failures are those announced plus those still active |
| Streaks.WarningsAreSpaced | pearlarr/arr_http.py:490-500 | Visible warnings of one streak are a heartbeat apart |
| Streaks.WarningsAreBounded | pearlarr/arr_http.py:490-500 | So they are at most one more than its age over the heartbeat |
| Streaks.StreakIs | pearlarr/arr_http.py:473-507 | A streak holds the failures of its key since the last recovery, and the first of them |
| Streaks.FailureSays | pearlarr/arr_http.py:473-507 | A failure warns first, again with number and age once a heartbeat has passed since the last warning, and else leaves a debug line |
| NearTitles.SwapIsNear | pearlarr/episode_titles.py:263-265 | Equally long titles are within one edit exactly when at most one place differs |
| NearTitles.DropIsNear | pearlarr/episode_titles.py:266-269 | A title a word longer is within one edit exactly when dropping a word gives the other |
| NearTitles.NearIsOneEdit | pearlarr/episode_titles.py:257-269 | The match answers exactly within edit distance one, with a common subsequence as long as the longer title less the distance |
| DoubledSizes.DoubledLeavesOneShort | pearlarr/planner.py:119-129 | A doubled size leaves some listed size on strictly fewer episodes than listed |
| DoubledSizes.PermutedDoublesNone | pearlarr/planner.py:119-129 | A copy that only moves the listed sizes around doubles none |
| DoubledSizes.NoneDoubledIff | pearlarr/planner.py:119-129 | With every listed episode held, none is doubled exactly when each size is held as often as listed |
| EpisodeRanges.Condense | pearlarr/coverage.py:8-29 | The walk gives separated runs that cover exactly the episodes |
| EpisodeRanges.RunsAreUnique | pearlarr/coverage.py:15-31 | No other such runs cover them, so the ranges tell the episodes |

## Left out

- Texts and their parsing: name folding and group folding are function parameters, descriptors and range texts come as their parsed parts, stamps as moments. The name folding is taken to settle a name in one go; the group folding is not, because `normalize_group` does not.
- HTTP, qBittorrent, AniList, SkyHook, Discord, retries and timeouts: a poll, a fetch, a scan and a landing are parameters.
- SQLite: a table is a sequence of rows, a commit a copy. Failures inside a replacing transaction, quarantine and promotion are not modelled.
- The cleanup effects themselves (category move, queue close): whether they end clean is a parameter.
- The file's quality, languages, import mode and command guard of a post: none decides which file goes onto which episode.
- Wait views, telemetry, labels, log lines and range texts: presentation.
- The placement of files by names and windows: a record's file map is given.
- `filter_by_torrent_hash`, `filter_by_release_group` and the url matchers of the planner: the reduction takes the flags they leave.
- `filled_by_hand`, `disk_leftover` and the hand-import arms of a poll: the plan and the verify arm are modelled.
- `resolved_ids`, `preowned` and the bar counts of a poll: counters for display.
- The anime-ids and AniDB tables of the mapping store: point lookups without regrouping.
- `with_sizes_by_name`: it fills an empty map and does nothing else.
- Blocking-mode counters: the monitor adds to them after the tally by design (pearlarr/run_loop.py:323-326).
- The identity answer of a `with_*` no-op: on values an equal record is the same record.
- AtLeastOnce: handled means marked dirty or rescanned by a committed full pass; what the scan of a title then does is not modelled. It assumes later ids are dated at most the query overlap before earlier ones, which `LateRecordIsLost` shows is needed.
- RunMonitor: interrupts are not modelled; it assumes that instants never step back, that every poll of a row after its first comes at least a fixed step after the one before, however much later, and that done-counts are bounded.
- ReplanIsQuiet: it assumes that each id is mapped by one file, that listed sizes are among the release's, that the own group normalizes to something, that what was posted landed under the own group at its listed size, that each mapped episode is in the index that judges it, and that the second scan finds no mapped file the first did not.
- Doubled sizes are a set here; the source sorts them for the log.
