# Model of the predictor bot's coordination logic

The bot lets chats predict esports matches. Most of its difficulty is not in the
screens but in what has to stay true while scheduled jobs, remote services,
crashes and corrected results get in each other's way. This project models that
part in Dafny and proves what it keeps.

| file | what it models |
|---|---|
| `PaidRun.dfy`, `PaidRunHistory.dfy`, `PaidRunLimits.dfy` | a billed remote ranking job spread over scheduler ticks: one tick as code, then whole histories with the weekly gate, restarts and failing saves; then exactly how far its promises reach |
| `Outbox.dfy`, `OutboxHistory.dfy` | the transactional outbox, its daily partitions and its dispatcher; then every interleaving of transactions, sends, crashes, deletes and sweeps |
| `Completion.dfy`, `CompletionRace.dfy` | closing a tournament in its chats, and two jobs doing it at once under an advisory lock |
| `TeamOrder.dfy` | which team a score belongs to, over any history of provider answers and over the one-off correction of old matches |
| `Settlement.dfy` | settling the polls of a finished match, one transaction a poll |
| `PollScoring.dfy` | the two before put together: from the provider's answer to a voter's points |
| `Gateway.dfy`, `MatchSync.dfy` | the provider gateway's circuit breaker with 64-bit delays, failover, grouping by provider, and the choice of tournaments to ask about |
| `Streaks.dfy`, `Standings.dfy`, `TournamentScope.dfy`, `SeriesWindow.dfy` | the longest-streak query, dense ranks, the year's awards, merged team tables, the windowed scan of results |
| `DigestWindows.dfy` | when monthly and annual reports are due, and that each goes out once |
| `Retention.dfy` | pruning by age and by number of rows |
| `CallbackData.dfy`, `Numerals.dfy` | what a button carries: scopes, permission masks, wizard payloads; integers as text |
| `WeekClock.dfy`, `Wrappers.dfy` | UTC weeks; optional values |

Code that changes state is a class whose methods are proved against functions of
the old state; concurrency and crashes are step relations over a `World`, and the
main results hold after every sequence of possible steps. A remote call, a clock
reading or a failure is a parameter of the step it happens in. Instants are
nanoseconds on one clock that never goes back.

## Where the code and its comments differ

The model follows the code.

* `internal/adapter/apifyhltv/provider.go:42-46` promises no start beside a run in
  flight, none beside this period's result, and no more than `MaxRunsPerPeriod` in
  a period. The first and the last hold over all histories exactly when every
  record is saved, every request for a run gets its answer and no record is lost
  (`StartsAloneExactlyWhen` and `LimitHoldsExactlyWhen`, with a second run beside
  the first for each of the three; `BudgetIsExactly` has the exact number
  otherwise). No record counts a request whose answer is lost, and a week can
  send any number of them (`UnansweredAreUnbounded`). The second promise holds
  exactly when no run goes over midnight on Sunday and no list of runs is full
  (`NoneBesideResultExactlyWhen`, with a world for each); `StartsExactlyWhen` says
  for one tick when a run is started.
* The same file tests only that the record names a run, so a run collected last
  week is handed out again as this week's (`StaleRankingIsHandedOut`);
  `RankingIsThisWeeksExactlyWhen` gives the condition. Since nothing clears a
  record, a source stays with its first collected run until the record is lost
  (`CollectedIsForGood`).
* `internal/app/gateway.go:32-36` and `:260-263` speak of doubling. For bases of 2^33 ns and
  more the 64-bit shift can wrap to a short positive delay; `DelayExactness` says
  exactly when, `LargeBaseWraps` gives one, `DefaultDelay` shows the default safe.
  Doubling also stops after thirty steps, which may be short of the maximum;
  `SaturatesExactlyWhen` says for every base whether the maximum is reached.
* `internal/app/sync.go:398-400` promises one team order for the lifetime of a
  match. A fetch naming fewer than two teams drops the order;
  `AnchorHoldsExactlyWhen` gives the condition, `CorrectsAtMostOnceExactlyWhen` when
  the back-fill is then safe to repeat, `OldPollsPayExactlyWhen` when polls from
  before polls recorded their teams still pay the right side, and
  `CorrectionTurnsPay` what a correction does to those.
* `internal/app/settlement.go:73-76`: a corrected score is settled again because its
  text differs. If the teams are also reported the other way round the text can be
  the same, and the correction is skipped (`OrderFlipHidesCorrection`). `SkipIsRight`
  says for two finishes when skipping is right, `LastScoreWins` for any sequence of
  calls when the last score has won.
* `internal/app/retention.go:126-130` gives a partition one day past the retention
  time before it is dropped. That is enough exactly as long as no transaction takes
  longer than that (`NothingIsLostExactlyWhen`).
* `internal/app/completion.go`: medals and mark belong to the same standings exactly
  when somebody had predicted (`MedalsMatchMark`; `MedalsOutliveTheirMark` has a
  history where they do not); and a chat marked with no predictions does not notice
  predictions exactly when they leave its rows alone (`MarkHidesPredictions`).
* `internal/app/tournament_scope.go:122-126` describes one table of matches that
  involve any followed team. A match between two of them counts twice
  (`MergeIsEitherTeamExactlyWhen`).
* `internal/adapter/grid/provider.go:170-177`: the windowed scan gives the sequential
  result, but can fail on a lookup the sequential one would not have made
  (`ScanFailsExactlyWhen`, `ScanFailsNeedlessly`).
* `internal/adapter/postgres/retention.go:66-72`: with equal timestamps a row cap can
  leave more rows than its number; `CapHoldsExactlyWhen` says exactly when.

## Model

| member | source | states |
|---|---|---|
| WeekClock.WeekIsUnique | internal/platform/common/clock.go:28-32 | an instant lies in exactly one Monday-to-Monday week, and that is the week the clock computes |
| WeekClock.WeekIsFloor | internal/platform/common/clock.go:28-32 | the start of a week is whole weeks from Monday 1970-01-05 |
| WeekClock.WeeksAreOrdered | internal/platform/common/clock.go:28-32 | a later instant is never in an earlier week |
| PaidRun.RunStore.SaveRun | internal/adapter/apifyhltv/provider.go:626-631 | a confirmed save replaces the record; an unconfirmed one may or may not have; other records stay |
| PaidRun.RunStore.ClearRun | internal/adapter/apifyhltv/provider.go:643-648 | clears one record and no other |
| PaidRun.Provider.FetchRankings | internal/adapter/apifyhltv/provider.go:270-295 | a whole tick: result and new record are those of the tick function, over every reply of the remote side |
| PaidRun.Provider.CollectStartedRun | internal/adapter/apifyhltv/provider.go:335-366 | an unfinished run is waited for or given up, a successful one collected, an unsuccessful one passed on |
| PaidRun.Provider.AdoptFinishedRun | internal/adapter/apifyhltv/provider.go:378-399 | the scan of finished runs stops at the first that is of this week and this ranking, or that cannot be read |
| PaidRun.Provider.Collect | internal/adapter/apifyhltv/provider.go:446-452 | a collected run is recorded, and handed out only if the save is confirmed |
| PaidRun.Provider.StartPaidRun | internal/adapter/apifyhltv/provider.go:404-433 | a run is requested only under the budget; what is recorded counts it |
| PaidRun.Provider.FetchLatestCached | internal/adapter/apifyhltv/provider.go:307-325 | the first of the listed runs with a ranking of this mode in it, every earlier one being gone, of the other mode or empty; an unreadable one or list fails; nothing is started or recorded |
| PaidRun.MaxRunsIsConfigured | internal/adapter/apifyhltv/provider.go:436-441 | the configured number of runs, or three |
| PaidRun.FirstRunDecides | internal/adapter/apifyhltv/provider.go:378-399 | the first listed run of the period not known to be of the other ranking decides: adopted with no attempts, or the tick fails and the record stays |
| PaidRun.WaitsExactlyWhen | internal/adapter/apifyhltv/provider.go:335-356 | a run in flight is waited for exactly up to six hours from its start, then let go of with its attempts kept |
| PaidRun.SuccessIsCollected | internal/adapter/apifyhltv/provider.go:357-362 | a successful run on record decides the tick: recorded as collected and handed out, or an error |
| PaidRun.UnansweredChangesNothing | internal/adapter/apifyhltv/provider.go:270-295 | a record, run or list that cannot be read fails the tick and leaves the record |
| PaidRun.StartsWhenNothingElse | internal/adapter/apifyhltv/provider.go:404-433 | with nothing followed and nothing listed a run is started while the week's attempts leave one, and what is recorded counts it |
| PaidRunHistory.FetchShapes | internal/adapter/apifyhltv/provider.go:270-295 | the only four things a tick can do to the record and the remote side |
| PaidRunHistory.WeeklyBudget | internal/adapter/apifyhltv/provider.go:404-433 | over every history of ticks, restarts, remote changes and lost records, runs accepted in a week stay within the budget plus unsaved records plus a budget per loss, although adoption resets the attempts; all runs started, within that plus one per request without a usable answer |
| PaidRunLimits.BudgetIsExactly | internal/adapter/apifyhltv/provider.go:404-433 | that number, for so many unsaved records, unanswered requests and lost records, is the least number of started runs a week never exceeds |
| PaidRunLimits.BudgetIsAttained | internal/adapter/apifyhltv/provider.go:417-432 | a history that attains it, for any configured number and any number of each mishap |
| PaidRunLimits.LimitHoldsExactlyWhen | internal/adapter/apifyhltv/provider.go:42-46 | the promised limit on runs started in a period, the configured number or three, holds over all histories exactly when every record is saved, every request answered and no record lost |
| PaidRunHistory.UnansweredAreUnbounded | internal/adapter/apifyhltv/provider.go:417-424 | requests without a usable answer are counted by no record: any number of them fits one week |
| PaidRunHistory.OneRunAtATime | internal/adapter/apifyhltv/provider.go:279-294 | a run is started only when no run on record is in flight, save one given up after the patience, and the adoption scan came back clean and empty |
| PaidRunLimits.NoStrays | internal/adapter/apifyhltv/provider.go:417-432 | without an unsaved record, an unanswered request or a lost record every own run is followed or was given up |
| PaidRunLimits.StartsAloneExactlyWhen | internal/adapter/apifyhltv/provider.go:42-46 | no run is started beside another of this provider's in flight, save one given up, exactly when every record is saved, every request answered and no record lost |
| PaidRunLimits.SecondRunBesideUnsaved | internal/adapter/apifyhltv/provider.go:425-432 | a second run started beside one whose record was not saved |
| PaidRunLimits.SecondRunBesideLost | internal/adapter/apifyhltv/provider.go:643-648 | a second run started beside one whose record was lost |
| PaidRunLimits.SecondRunBesideUnanswered | internal/adapter/apifyhltv/provider.go:24-29 | a second run started beside one whose request never got its answer |
| PaidRunLimits.StartsExactlyWhen | internal/adapter/apifyhltv/provider.go:279-294 | with every question answered, a run is started exactly when none on record is in flight or successful and every result of this week is out of the query's sight: started in an earlier week, or behind ten newer runs of no use |
| PaidRunLimits.NoneBesideResultExactlyWhen | internal/adapter/apifyhltv/provider.go:42-46 | no run is started while this week's result exists, over all histories with full answers to the list query, exactly when no run goes over midnight on Sunday and no list is full |
| PaidRunLimits.StartBesideResult | internal/adapter/apifyhltv/provider.go:466-467 | whatever else failed, a run is started beside this week's result only if the query does not show that |
| PaidRunLimits.ResultFromOverMidnight | internal/adapter/apifyhltv/provider.go:466-467 | a run started before Monday that finished in the week is out of the query's sight, and another is started |
| PaidRunLimits.ResultHiddenInCrowd | internal/adapter/apifyhltv/provider.go:89-93 | ten newer runs of the other ranking hide this one's, and another is started |
| PaidRunHistory.NothingToAdopt | internal/adapter/apifyhltv/provider.go:378-399 | the scan finds nothing exactly when every listed run is of another week or another ranking |
| PaidRunHistory.RankingsAreOurs | internal/adapter/apifyhltv/provider.go:357-362 | a ranking handed out is of this mode and from a successful run; an adopted one finished in the period it is stamped with |
| PaidRunHistory.CollectedRunIsCollectedAgain | internal/adapter/apifyhltv/provider.go:279-283 | a collected record, of whatever week, is collected once more and stamped with the week of the tick |
| PaidRunHistory.RankingIsThisWeeksExactlyWhen | internal/adapter/apifyhltv/provider.go:357-362 | a ranking handed out is of a run that finished in the week it is stamped with, exactly unless the record follows an older successful run |
| PaidRunLimits.StaleRankingIsHandedOut | internal/adapter/apifyhltv/provider.go:279-283 | a history, behind the gate too, in which one run gives two weeks their ranking, the second after it |
| PaidRunHistory.CollectedIsForGood | internal/adapter/apifyhltv/provider.go:279-283 | from a collected record on, no request is sent and no other run is handed out unless the record is lost |
| PaidRunHistory.GateWindow | internal/app/ranking_sync_gate.go:61-72 | the gate is open exactly from 23:00 UTC on a Monday, counted from 1970-01-05, to the end of the week, until that or a later week is collected |
| PaidRunHistory.ResultShutsGate | internal/app/ranking_sync_gate.go:61-72 | once a fetch hands out a ranking, the gate is shut for the rest of that week, whatever steps follow, unless the record is lost |
| PaidRunHistory.OneRankingPerWeek | internal/app/enrichment_sync.go:75-112 | the gated job hands out at most one ranking a week, whatever the spacing of its ticks, plus one per lost record |
| PaidRunLimits.RankingsPerWeekExactly | internal/app/enrichment_sync.go:75-112 | one and one per lost record is the least number of rankings the gated job never exceeds in a week |
| PaidRunHistory.NoSilentStall | internal/adapter/apifyhltv/provider.go:244-260 | a row of pending ticks within a week ends within the patience and the budget of further patiences and gaps, unless an undated run stays in flight |
| PaidRunHistory.UndatedRunStallsForever | internal/adapter/apifyhltv/provider.go:244-246 | such a run is waited for at any instants whatever |
| Outbox.OutboxTable.Enqueue | internal/adapter/postgres/outbox.go:33-40 | adds one unpublished row, due at once, in its day's partition or the default one |
| Outbox.OutboxTable.Pending | internal/adapter/postgres/outbox.go:42-61 | due rows, each once, oldest first, up to the limit, and nothing older left out |
| Outbox.OutboxTable.MarkAsFailed | internal/adapter/postgres/outbox.go:69-78 | one more attempt, and the next one after the delay of the attempts before it |
| Outbox.OutboxTable.Defer | internal/adapter/postgres/outbox.go:83-88 | moves the next attempt and nothing else |
| Outbox.OutboxTable.ReplayDeadLetters | internal/adapter/postgres/outbox.go:120-128 | exactly the dead rows wait again with no attempts, are due at once, and are counted |
| Outbox.OutboxTable.DeletePublishedBefore | internal/adapter/postgres/retention.go:44-51 | deletes exactly the rows published before the cutoff |
| Outbox.OutboxTable.EnsurePartition | internal/adapter/postgres/outbox_partitions.go:51-60 | makes the day's partition unless the statement fails or the default one holds rows of that day |
| Outbox.OutboxTable.DropPartitionIfEmpty | internal/adapter/postgres/outbox_partitions.go:66-97 | drops a day's partition exactly when it exists, is seen empty and is not locked; no row goes with it |
| Outbox.BackoffDoubles | internal/adapter/postgres/outbox.go:75 | the delay is a second at first, twice as long after each failure, 300 seconds at most |
| Outbox.DelaysDouble | internal/adapter/postgres/outbox.go:69-78 | two recorded failures of one row in turn: the second delay is twice the first, or the most there is |
| Outbox.DueAfterEnqueue | internal/adapter/postgres/outbox.go:33-46 | a new row is due from its own instant on |
| Outbox.DueAfterFailure | internal/adapter/postgres/outbox.go:45-76 | a failed row is due again exactly from the end of its delay on, unless that was the twentieth attempt |
| Outbox.DueAfterDeferral | internal/adapter/postgres/outbox.go:83-88 | a deferred row is due exactly from its new instant on |
| Outbox.PublishedIsDone | internal/adapter/postgres/outbox.go:63-67 | a published row is never due, and is pruned exactly by cutoffs later than its mark |
| Outbox.ReplayWakesTheDead | internal/adapter/postgres/outbox.go:120-128 | a replay resets exactly the unpublished rows with twenty attempts, which are due from then on |
| Outbox.EnqueueRoutes | internal/adapter/postgres/outbox_partitions.go:51-60 | a new row goes to its day's partition, or to the default one if there is none |
| Outbox.EnsureFailsExactlyWhen | internal/adapter/postgres/outbox_partitions.go:51-60 | making a partition fails exactly when a row would then be in the wrong one |
| Outbox.SeenEmptyExactlyWhen | internal/adapter/postgres/outbox_partitions.go:66-97 | a partition is seen empty exactly when dropping it takes no row |
| Outbox.OutboxTable.MaintainPartitions | internal/app/retention.go:131-155 | tries today and the next two days, then the sixty days before a day and the retention time ago, each day on its own; it has made exactly those of the three whose making does not fail, and dropped exactly the swept, empty days whose drop does not |
| Outbox.SweptDaysAreOld | internal/app/retention.go:144-146 | the day a sweep goes back to ended exactly the retention time, in whole days, and its number of days before midnight |
| Outbox.OutboxDispatcher.Dispatch | internal/app/outbox_dispatcher.go:36-50 | reads a pending batch and works it off in order, no message's trouble keeping the next from its turn; an unread batch changes nothing |
| Outbox.OutboxDispatcher.DispatchOne | internal/app/outbox_dispatcher.go:52-105 | success marks, a deferral moves, anything else fails the message |
| Outbox.EachMessageOnItsOwn | internal/app/outbox_dispatcher.go:52-105 | over a whole batch each message is marked, put off or failed with its delay by its own outcome alone, and rows outside it stay |
| Outbox.WrongStampIsNoOp | internal/adapter/postgres/outbox.go:63-78 | an update with another instant than the row's changes nothing |
| OutboxHistory.NoMessageIsLost | internal/adapter/postgres/outbox_partitions.go:66-97 | over every interleaving of transactions, sends, crashes, deletes and sweeps, an enqueued message is in the table or was sent |
| OutboxHistory.DropTakesNothing | internal/adapter/postgres/outbox_partitions.go:86-89 | a partition seen empty in one transaction is still empty when another drops it |
| OutboxHistory.SendsAreAccountedFor | internal/app/outbox_dispatcher.go:99-104 | at least once, and at most once more per send whose mark failed or was cut off |
| OutboxHistory.RetriesAreAccountedFor | internal/app/outbox_dispatcher.go:62-97 | attempts never pass twenty, and failures are the attempts plus twenty per replay |
| OutboxHistory.DeferralCostsNothing | internal/app/outbox_dispatcher.go:66-77 | a deferral changes no attempt count and no row's being dead |
| OutboxHistory.GivenUpSlowly | internal/adapter/postgres/outbox.go:69-78 | a message is given up no sooner than 3511 seconds after the first failure of its round |
| OutboxHistory.PatienceOfTwentyTries | internal/adapter/postgres/outbox.go:75 | the nineteen backoffs before the last try add up to 3511 seconds |
| OutboxHistory.NothingIsLostExactlyWhen | internal/adapter/postgres/outbox_partitions.go:66-97 | checking and dropping in two transactions loses nothing over all histories exactly when no transaction outlives the retention time in whole days and a day |
| OutboxHistory.LateCommitIsLost | internal/adapter/postgres/outbox_partitions.go:66-97 | for any longer limit, a history in which an unsent message is dropped with its partition |
| OutboxHistory.StepKeeps | internal/app/outbox_dispatcher.go:52-105 | every single step keeps the batch, partition and account invariants |
| Retention.Table.DeleteExceeding | internal/adapter/postgres/retention.go:73-105 | keeps what is not older than the row at the cap, and counts what it deletes |
| Retention.CapKeepsNewest | internal/adapter/postgres/retention.go:73-105 | survivors are upward closed in time, at least the capped number, exactly that when stamps differ; unpublished rows are never touched; a cap of zero or less keeps everything |
| Retention.SurvivesAsOften | internal/adapter/postgres/retention.go:44-51 | a row survives a cutoff, as often as it was there, exactly if it has no stamp or one not before the cutoff |
| Retention.CapHoldsExactlyWhen | internal/adapter/postgres/retention.go:73-105 | no more than the capped number of stamped rows survive, and exactly as many as the cap lets, exactly when there are no more or the next one is strictly older than the one at the cap |
| Retention.TiesOutliveTheCap | internal/adapter/postgres/retention.go:73-105 | equal stamps can leave more rows than the cap |
| Settlement.ResultSettlement.Settle | internal/app/settlement.go:77-106 | polls in order, each its own transaction, skipped when the stored score is this one; the first failure ends the call |
| Settlement.ResultSettlement.RunTransaction | internal/app/settlement.go:98-102 | a poll's awards, message and mark are written together or not at all, wherever the transaction breaks off |
| Settlement.ResultSettlement.Score | internal/domain/scoring/service.go:46-68 | the awards built vote by vote are those of the specification |
| Settlement.ResultSettlement.ReplaceAwards | internal/adapter/postgres/scoring.go:115-132 | a poll's awards become exactly the given ones; other polls keep theirs |
| Settlement.AwardsMeaning | internal/domain/scoring/scoring.go:316-324 | a voter has an award exactly when the option the vote names has the right winner; the exact score earns the full points, else one |
| Settlement.PredictedIsChoice | internal/domain/scoring/service.go:50-58 | a vote predicts the score of the first option with the index it names, and nothing if there is none |
| Settlement.ExactPointsAreWins | internal/domain/competition/competition.go:126-133 | the exact score is worth the least majority of a best-of, all maps otherwise |
| Settlement.ShowInjective | internal/domain/competition/competition.go:154-156 | the text kept as the settlement mark tells all scores apart |
| Settlement.RealignedToPoll | internal/domain/scoring/service.go:86-94 | a poll is scored against each of its own teams' scores |
| Settlement.OtherTeamsKeepScore | internal/domain/scoring/service.go:80-94 | a poll that recorded no teams, or other ones, is scored by the score as it stands |
| Settlement.AwardsIgnoreOrder | internal/domain/scoring/service.go:86-94 | swapping the match's teams together with its score changes no award of a poll that recorded its teams |
| Settlement.SkipIsRight | internal/app/settlement.go:94-96 | between finishes with the same text, skipping is right for every guess exactly when the team order is the same or the score a draw, and the exact score is worth the same |
| Settlement.PaysAlikeExactlyWhen | internal/domain/scoring/scoring.go:316-324 | two finishes pay every guess alike exactly when a poll sees the same result and the exact score is worth the same |
| Settlement.ReachedIsSettled | internal/app/settlement.go:89-104 | every poll a call gets through carries the call's score |
| Settlement.OkExactlyWhen | internal/app/settlement.go:89-104 | a call comes through exactly when every mark can be read and every poll not up to date is settled without a fault, for a match with a start |
| Settlement.BeyondIsUntouched | internal/app/settlement.go:98-102 | a call leaves the polls from the failing one on, and all others, as they were |
| Settlement.RerunIsNoOp | internal/app/settlement.go:94-96 | settling an unchanged score again changes nothing |
| Settlement.MarkAndAwardsAgree | internal/app/settlement.go:108-184 | after any calls and aborts a poll's mark and awards are both those of the finish that last changed the mark, of a match that was over and had begun, or it has neither |
| Settlement.LastScoreWins | internal/app/settlement.go:73-106 | after a call that comes through, a poll has that call's score and exactly its awards, whatever was voted, exactly when it comes to the same thing for the poll as the finish that last changed the mark |
| Settlement.OrderFlipHidesCorrection | internal/app/settlement.go:94-96 | a correction reported with the teams the other way round is skipped, and the wrong awards stay |
| Settlement.MessagesAreMarkChanges | internal/app/settlement.go:173-175 | one result message per committed change of a poll's mark, over any calls, corrections and aborts |
| Settlement.LastMessageIsMark | internal/app/settlement.go:173-175 | the last message about a poll gives the score it is settled with |
| Completion.HashInjective | internal/app/completion.go:327-333 | digests agree exactly when user, rank and points agree row by row |
| Completion.MedalsMeaning | internal/adapter/postgres/scoring.go:664-681 | a user holds a medal exactly for a rank from one to three, and it is that rank |
| Completion.CompletedTwice | internal/app/completion.go:134-140 | repeating a pass on the same standings does nothing |
| Completion.MarkHidesPredictions | internal/app/completion.go:146-148 | after a pass without predictions, standings with predictions bring neither medals nor a recap exactly when they have the same rows, and both otherwise |
| Completion.EventCompletion.HashRows | internal/app/completion.go:327-333 | the rows written one by one are the digest |
| Completion.EventCompletion.SomebodyPredicted | internal/app/completion.go:315-322 | true exactly when a row counts a prediction |
| Completion.EventCompletion.AwardMedals | internal/adapter/postgres/scoring.go:664-681 | the medals of the standings, a later row of a user replacing an earlier one |
| Completion.EventCompletion.CompleteForChat | internal/app/completion.go:122-189 | a pass writes medals, recap and mark as specified, or nothing, exactly as reading, the writes it gets to and the commit go; other chats stay |
| Completion.EventCompletion.Complete | internal/app/completion.go:74-109 | nothing before every match is over, and nothing for an event without matches; then every chat is visited and those without trouble completed |
| Completion.EachChatOnItsOwn | internal/app/completion.go:92-107 | a chat ends up as its own visit leaves it, whatever happens to the others |
| Completion.HoldsOpenExactlyWhen | internal/app/completion.go:65-69 | as the provider reports it, a match holds its event open exactly unless it is forfeited or spelt finished, canceled or cancelled |
| Completion.PassMeans | internal/app/completion.go:122-189 | a pass acts exactly when the mark is another's; then it marks, awards if somebody predicted, and tells the chat if it wants that |
| CompletionRace.RecapsAreAccountedFor | internal/app/completion.go:111-189 | however passes interleave and abort, recaps are no more than changes of the mark, for each result |
| CompletionRace.MedalsMatchMark | internal/app/completion.go:134-150 | the mark is the digest of a version of the standings; medals are that version's exactly when it has predictions |
| CompletionRace.MedalsOutliveTheirMark | internal/app/completion.go:134-150 | a history that leaves the mark of one version and the medals of another, for any standings somebody predicted followed by others nobody did |
| CompletionRace.MarkNeverGoesBack | internal/app/completion.go:111-121 | the version marked never goes back to an older one |
| CompletionRace.WithoutLockTwoRecaps | internal/domain/scoring/scoring.go:254-265 | without the lock, any event somebody predicted can be announced twice for one change |
| CompletionRace.StepKeeps | internal/adapter/postgres/scoring.go:701-717 | every step keeps the lock, record and recap invariants |
| TeamOrder.MapMatch | internal/adapter/pandascore/mapper.go:169-225 | the loops over opponents and results give the specified match: first two opponents by number, score only when finished and complete |
| TeamOrder.PairIsFirstTwo | internal/adapter/pandascore/mapper.go:169-178 | an opponent is one of the pair exactly when it is there and fewer than two before it are, at its place among those |
| TeamOrder.MappedIsSorted | internal/adapter/pandascore/mapper.go:189-202 | the pair in the order of the numbers; without two teams no second one and no score |
| TeamOrder.ResultIsLastEntry | internal/adapter/pandascore/mapper.go:203-206 | a team's result is that of its last entry, and there is none without one |
| TeamOrder.StatusMeans | internal/adapter/pandascore/mapper.go:227-241 | each status comes out exactly for its word in letters of either case, a forfeit whatever the word |
| TeamOrder.MappingIgnoresOrder | internal/adapter/pandascore/mapper.go:179-191 | swapping the opponents changes nothing, exactly unless one number stands for two teams |
| TeamOrder.SettledExactlyWhen | internal/adapter/pandascore/mapper.go:208-241 | a match is finished with a score exactly when not forfeited, spelled "finished", with two teams and a result for each; each side gets its own result |
| TeamOrder.Catalog.ProcessMatch | internal/app/sync.go:417-425 | what is saved is the fetch in the order already known, unless a team would play itself |
| TeamOrder.ScoreBelongsToTeam | internal/app/sync.go:401-414 | after any history, what a fetch saves gives each team its own result |
| TeamOrder.FreshStaysSorted | internal/adapter/pandascore/mapper.go:189-191 | a match first seen through this mapping stays in the order of the teams' numbers |
| TeamOrder.AnchorHoldsExactlyWhen | internal/app/sync.go:402-405 | an old match keeps its order at a full fetch exactly when that is the order of the numbers or no fetch named fewer than two teams |
| TeamOrder.ShortFetchDropsAnchor | internal/adapter/postgres/competition.go:717-729 | an order against the numbers does not outlive a fetch naming fewer than two teams |
| TeamOrder.Catalog.Backfill | cmd/backfill-team-order/main.go:153-198 | swaps exactly the matches that are as recorded, up to the entry the run fails at, and nothing in a dry run; exactly their events are completed again |
| TeamOrder.CorrectedExactlyWhen | cmd/backfill-team-order/main.go:163-173 | a match is turned round exactly when both names and both scores are as found |
| TeamOrder.EachEntryOnItsOwn | cmd/backfill-team-order/main.go:153-198 | each listed match is corrected on its own; others stay |
| TeamOrder.CorrectedAtMostOnce | cmd/backfill-team-order/main.go:163-183 | over any runs and full fetches the swap is applied at most once, and then survives |
| TeamOrder.AgainstNumbersOnce | cmd/backfill-team-order/main.go:163-183 | so it is with short fetches, for a match recorded against the order of the teams' numbers |
| TeamOrder.CorrectsAtMostOnceExactlyWhen | cmd/backfill-team-order/main.go:163-167 | at most one swap over every life, exactly when the recorded order is against the numbers or no fetch names fewer than two teams |
| TeamOrder.ShortFetchReopensCorrection | cmd/backfill-team-order/main.go:163-167 | for any two teams recorded in the order of their numbers, a life in which the swap is applied twice |
| PollScoring.SavedResult | internal/app/sync.go:401-425 | after any fetches and corrections the score is the result of the last fetch saved, seen from the side of whichever team comes first |
| PollScoring.RecordedPollPaysByResult | internal/domain/scoring/service.go:76-94 | a poll that recorded its teams pays each voter by the provider's result for those teams, after any history of fetches and corrections |
| PollScoring.OldPollIsScoredBy | internal/app/sync.go:386-414 | an older poll is scored by the provider's result if its match stands in the order the poll was made with, by the mirrored one if not |
| PollScoring.OldPollPaysByResult | internal/app/sync.go:386-414 | an older poll pays by the provider's result as long as its match stands in the order it was made with |
| PollScoring.OldPollPaysMirrored | internal/app/sync.go:402-405 | once the match stands the other way round, by a correction or after a short fetch, it pays by the mirrored result |
| PollScoring.OldPollsPayByOrder | internal/domain/scoring/service.go:84-94 | after any fetches and corrections every old poll pays rightly exactly when the match stands in the order they were made with or the result is a draw |
| PollScoring.OldPollsPayExactlyWhen | internal/domain/scoring/service.go:84-94 | without corrections, that is exactly when the match was stored in the order of the numbers or no fetch was short, or the result is a draw |
| PollScoring.CorrectionTurnsPay | cmd/backfill-team-order/main.go:163-180 | a correction that goes through makes every old poll pay rightly exactly if not every one did before, or the result is a draw |
| PollScoring.OldPollPaysTheWrongSide | internal/app/sync.go:402-405 | a voter who called the very score, paid nothing |
| Gateway.DelayInRange | internal/app/gateway.go:276-283 | every delay is positive and at most the maximum, wrapping or not |
| Gateway.DelayIsCappedDoubling | internal/app/gateway.go:276-283 | under 2^33 ns the delay is capped doubling exactly |
| Gateway.DelayGrowsWithStreak | internal/app/gateway.go:276-283 | and never shrinks as the streak grows |
| Gateway.DelayExactness | internal/app/gateway.go:276-283 | for any base, capped doubling exactly unless the product wraps to a positive value below the maximum |
| Gateway.LargeBaseWraps | internal/app/gateway.go:276-283 | 2^34+1 ns wraps to a delay shorter than itself |
| Gateway.DefaultDelay | internal/app/gateway.go:276-283 | 30 s and 15 min give capped doubling for every streak despite wrapping at 29 and 30 |
| Gateway.ProviderGateway.CircuitOpen | internal/app/gateway.go:230-241 | open exactly when the breaker is on and the entry lies in the future |
| Gateway.ProviderGateway.RecordSuccess | internal/app/gateway.go:244-258 | clears streak and entry, and reports a recovery exactly when there was an entry |
| Gateway.ProviderGateway.RecordFailure | internal/app/gateway.go:264-295 | counts, opens from the threshold on, and reports only the transition |
| Gateway.ProviderGateway.OrderedProviders | internal/app/gateway.go:175-190 | the preferred provider first if configured, then the others in their order |
| Gateway.ProviderGateway.Execute | internal/app/gateway.go:192-219 | tries providers in turn and ends as the specification does |
| Gateway.ProviderGateway.Health | internal/app/gateway.go:311-340 | unknown, down or up by the newest success, the grace time and the staleness |
| Gateway.FailoverPicksFirstHealthy | internal/app/gateway.go:195-218 | the first provider neither seen open nor failing serves; none seen open is called, none after the winner, even if one is listed twice |
| Gateway.SeenAsAtStart | internal/app/gateway.go:195-200 | a provider not listed before is seen as it was when the call began |
| Gateway.OpensAtThreshold | internal/app/gateway.go:264-295 | of failures in a row exactly the one that makes the threshold full opens the circuit and is reported; each further one moves its end to its own delay |
| Gateway.RecoversExactlyWhen | internal/app/gateway.go:230-258 | a provider whose circuit opened is tried again exactly from the end of its delay on; a success closes the circuit, clears the streak and is reported; before, nothing is called |
| Gateway.LetThrough | internal/app/gateway.go:192-219 | without an entry a provider is called; a success is noted and reports nothing, a failure counts |
| Gateway.BreakerOff | internal/app/gateway.go:230-234 | without a threshold every provider is tried until one answers and no circuit opens |
| Gateway.OthersKeepTheirs | internal/app/gateway.go:244-295 | what is recorded about a provider leaves the others' streaks, circuits and successes alone |
| Gateway.PreferredComesFirst | internal/app/gateway.go:175-190 | a known preferred provider comes first and the rest keep their order; an unknown one is left out |
| Gateway.TransitionsAlternate | internal/app/gateway.go:244-295 | over every interleaving, Down and Recovered alternate, an entry stands exactly between them and on a streak of at least the threshold |
| Gateway.OutageCallBound | internal/app/gateway.go:264-287 | for all accepted settings, serial calls in an outage number at most the threshold, thirty and one per last delay |
| Gateway.SettledCallBound | internal/app/gateway.go:264-287 | and at most the threshold, the steps until the delay settles and one per delay it settles at |
| Gateway.SaturatesExactlyWhen | internal/app/gateway.go:276-283 | for any base the delay comes to the maximum for good exactly unless the base shifted by thirty wraps to something positive below it; under 2^33 ns, exactly when thirty doublings reach it |
| Gateway.NeverSaturates | internal/app/gateway.go:276-283 | a smaller base stays at thirty doublings, below the maximum |
| Gateway.TinyBaseStaysShort | internal/app/gateway.go:276-283 | 1 ns under 15 minutes settles at about a second |
| Gateway.SaturationPoint | internal/app/gateway.go:276-283 | the doubling steps are those that reach the maximum |
| Gateway.DefaultOutage | internal/app/gateway.go:39-48 | eight calls and one more per 15 minutes with the default settings |
| MatchSync.CompetitionSynchronization.SelectEventsToSync | internal/app/sync.go:313-336 | exactly the chosen tournaments in order; the last full sweep is never longer ago than the interval |
| MatchSync.CompetitionSynchronization.Classify | internal/app/sync.go:342-384 | hot and known as defined, for every event asked about |
| MatchSync.PassedOverIsQuiet | internal/app/sync.go:300-336 | a tournament is passed over exactly when nothing of it is in play or within ninety minutes and something is known or it is over |
| MatchSync.KeptInOrder | internal/app/sync.go:325-335 | the chosen tournaments keep their order |
| MatchSync.AskedBeforeStart | internal/app/sync.go:354-361 | over runs no further apart than the hot lead, some run asks about a known match's tournament within the lead before its start |
| MatchSync.SweptInTime | internal/app/sync.go:313-318 | whatever happens to a tournament, a full sweep sees it by the first run an interval later |
| MatchSync.SweepsAreApart | internal/app/sync.go:313-318 | two full sweeps are at least the interval apart |
| MatchSync.GroupByProvider | internal/app/gateway.go:146-154 | one group per provider in order of appearance, each with its events in order |
| MatchSync.GroupHolds | internal/app/gateway.go:148-154 | a group holds exactly its provider's events |
| MatchSync.GroupsInOrder | internal/app/gateway.go:148-154 | a group keeps the order of its events and how often each is listed |
| MatchSync.FirstSeenOnce | internal/app/gateway.go:146-154 | every provider of some event is listed once, and no other |
| MatchSync.FirstSeenFirst | internal/app/gateway.go:146-154 | providers seen first stay first |
| MatchSync.AskEach | internal/app/gateway.go:156-172 | each group is asked through the gateway's own failover, in the state the ones before have left; a failing group costs its own matches only, and is reported |
| MatchSync.AskedExactlyWhen | internal/app/gateway.go:156-172 | no failure is reported exactly when every group is answered, in the state the ones before have left |
| MatchSync.AnsweredExactlyWhen | internal/app/gateway.go:195-218 | a group is answered exactly when some provider was not seen open and did not fail |
| Streaks.RunIsStreak | internal/adapter/postgres/scoring.go:876-886 | a group of the query is a streak of correct votes with nothing between |
| Streaks.StreakIsInRun | internal/adapter/postgres/scoring.go:876-886 | any streak lies within one group |
| Streaks.StreakInTime | internal/adapter/postgres/scoring.go:876-886 | a streak is taken in the order the matches were played, at one instant of the polls' numbers |
| Streaks.LongestIsLongestStreak | internal/adapter/postgres/scoring.go:858-898 | the query returns the length of the longest streak anybody has, and the least user with one as long |
| Streaks.AnswerExists | internal/adapter/postgres/scoring.go:891-893 | there is an answer exactly when somebody was right |
| Streaks.AnswerIsUnique | internal/adapter/postgres/scoring.go:887-890 | and only one |
| Standings.DenseRank | internal/domain/scoring/scoring.go:279-307 | rows sorted, each with one more than the number of different higher points totals, as the query counts it |
| Standings.SortSorts | internal/domain/scoring/scoring.go:282-294 | sorting keeps every row and leaves none behind one it precedes |
| Standings.ListedMeans | internal/domain/scoring/scoring.go:282-294 | points, exact scores and predictions fall down the list, each deciding between equals before it, then the user's number rises |
| Standings.BetterIsMoreAccurate | internal/app/digest.go:137-155 | the cross-multiplied comparison is the comparison of hit rates, rows without predictions last, then hits, predictions, points, user |
| Standings.BetterIsStrictOrder | internal/app/digest.go:137-155 | a strict total order on rows of different users |
| Standings.Winner | internal/app/digest.go:203-266 | the eligible row that beats every other, if any |
| Standings.WinnerMeans | internal/app/digest.go:203-266 | the winner's hit rate, hits or exact scores are the most of all rows in question, the comparison of rates deciding between equal numbers |
| Standings.NobodyWins | internal/app/digest.go:203-266 | nobody wins exactly when nobody has twenty predictions, a hit or an exact score |
| Standings.WinnerIgnoresOrder | internal/app/digest.go:203-266 | the winner does not depend on the order of the rows |
| Standings.BestComeback | internal/app/digest.go:169-201 | the climb that outdoes every other, if any |
| Standings.BestComebackMeans | internal/app/digest.go:169-201 | the comeback has the most places climbed, then the better final rank, the more points, the lesser user |
| Standings.BestComebackIgnoresOrder | internal/app/digest.go:169-201 | the comeback does not depend on the order of rows or baselines |
| DigestWindows.MonthsFollow | internal/app/digest.go:90-100 | the day after a month's last is the next month's first, over New Year and in leap years |
| DigestWindows.MonthLengths | internal/app/digest.go:90-92 | the lengths of the months by the rule that turns round in August |
| DigestWindows.DaysBefore | internal/app/digest.go:90-92 | the days before a year by the Gregorian rule for leap days |
| DigestWindows.SameDate | internal/app/digest.go:90-100 | dates are told apart by their day number |
| DigestWindows.DueExactlyInWindow | internal/app/digest.go:90-100 | a month is due exactly from 20:00 on its last day to 06:00 on the next, so one month at a time |
| DigestWindows.AnnualIsDecember | internal/app/digest.go:104-112 | a year is due exactly when its December is |
| DigestWindows.MonthKeyInjective | internal/app/digest.go:286-288 | different months have different keys |
| DigestWindows.YearKeyInjective | internal/app/digest.go:316-318 | different years have different keys |
| DigestWindows.KeySamples | internal/app/digest.go:286-318 | periods are named by year and month, or year |
| DigestWindows.DigestScheduler.Dispatch | internal/app/digest.go:58-85 | each chat's turn is taken in order, December going out with the year only |
| DigestWindows.DigestScheduler.Enqueue | internal/app/digest.go:357-378 | claims and sends once; no activity claims silently; an unwanted report leaves the period open |
| DigestWindows.AtMostOnce | internal/app/digest.go:357-378 | over any turns a chat gets a period's report at most once |
| DigestWindows.OnlyDueReports | internal/app/digest.go:71-82 | every report sent was due on the chat's clock, and no December is reported apart |
| DigestWindows.TurnSettlesPeriod | internal/app/digest.go:357-378 | a good turn in the window settles the period, unless the chat does not want it |
| DigestWindows.TurnActsExactlyWhen | internal/app/digest.go:357-378 | a turn changes something exactly when it does not fail, a window is open with its report unclaimed, and the chat wants it or has nothing to report |
| DigestWindows.EveryGoodTurnSettles | internal/app/digest.go:357-378 | over any turns, one that goes well in a window leaves the period claimed for good |
| DigestWindows.ClaimedIsReported | internal/app/digest.go:357-378 | a claimed period was reported, unless a turn found nothing to report |
| SeriesWindow.CollectSeriesResults | internal/adapter/grid/provider.go:178-215 | the sequential record, with the sequential lookups in whole windows, failing exactly when one of those does |
| SeriesWindow.ScanFailsExactlyWhen | internal/adapter/grid/provider.go:170-177 | the scan fails exactly when the sequential walk does or a lookup fails in the rest of the walk's last window |
| SeriesWindow.ScanFailsNeedlessly | internal/adapter/grid/provider.go:170-177 | two series of which the walk needs one: the scan fails on the other |
| SeriesWindow.ScanWindow | internal/adapter/grid/provider.go:180-213 | one window adds to the record what walking it would |
| SeriesWindow.WalkFacts | internal/adapter/grid/provider.go:199-213 | wins and losses make up the sample, never more than asked for, short only if there were no more |
| SeriesWindow.RecordCounts | internal/adapter/grid/provider.go:199-213 | wins and losses are those among the series looked up |
| SeriesWindow.WholeWindowsCover | internal/adapter/grid/provider.go:178-182 | whole windows are the least multiple of ten that covers the walk's lookups, or all there is |
| SeriesWindow.LookedStops | internal/adapter/grid/provider.go:180 | the walk goes on exactly as long as there is not enough |
| TournamentScope.MergedStandings | internal/app/tournament_scope.go:127-163 | every column of every user is the sum over the teams' tables |
| TournamentScope.OneVoteRow | internal/adapter/postgres/scoring.go:210-216 | a vote puts one row into a team's table exactly if the team played, with what it earned in each column |
| TournamentScope.MergeIsWeighted | internal/app/tournament_scope.go:132-157 | a vote counts once for each followed team in its match |
| TournamentScope.MergeIsEitherTeamExactlyWhen | internal/app/tournament_scope.go:122-126 | a column counts each match once exactly when nothing was earned on a match between two followed teams |
| CallbackData.ScopeRoundTrip | internal/adapter/telegram/callbackdata.go:52-89 | a scope and a payload come back whole, for every 64-bit id and any payload |
| CallbackData.SplitScopeSound | internal/adapter/telegram/callbackdata.go:67-89 | what is taken off is always a written scope; anything else comes back untouched |
| CallbackData.PrefixLength | internal/adapter/telegram/callbackdata.go:52-62 | a prefix is at most 16 bytes |
| CallbackData.InlineKeyboard.ApplyScope | internal/adapter/telegram/callbackdata.go:96-127 | every button is scoped in place, and the over-long ones are counted |
| CallbackData.DroppedCounts | internal/adapter/telegram/callbackdata.go:96-127 | the buttons counted are those too long with the scope in front |
| CallbackData.ScopingKeepsPayload | internal/adapter/telegram/callbackdata.go:96-127 | scoping never changes the payload decoded; only an over-long button stays without scope |
| CallbackData.FirstScopeWins | internal/adapter/telegram/callbackdata.go:96-127 | a scoped button is never scoped again |
| CallbackData.ScopingIsIdempotent | internal/adapter/telegram/callbackdata.go:96-127 | scoping a keyboard twice is scoping it once |
| CallbackData.EventPayloadsFit | internal/adapter/telegram/callbackdata.go:145-154 | every event payload fits 64 bytes under every scope and decodes |
| CallbackData.AppointFits | internal/adapter/telegram/callbackdata.go:174-176 | the payload with two ids keeps its scope exactly when the three ids together are at most 40 digits |
| CallbackData.ComputePermMask | internal/adapter/telegram/callbackdata.go:204-212 | the loop gives the mask of the known permissions |
| CallbackData.ComputePermsFromMask | internal/adapter/telegram/callbackdata.go:214-222 | the loop gives the permissions of the mask in their order |
| CallbackData.MaskMeans | internal/adapter/telegram/callbackdata.go:204-212 | the bit worth the i-th power of two stands for the i-th permission |
| CallbackData.ListedMeans | internal/adapter/telegram/callbackdata.go:214-222 | a permission is listed exactly when its bit is set |
| CallbackData.PermsRoundTrip | internal/adapter/telegram/callbackdata.go:204-222 | a permission list comes back as its known members in order |
| CallbackData.MaskRoundTrip | internal/adapter/telegram/callbackdata.go:204-222 | a mask comes back as its low four bits |
| CallbackData.WizardRoundTrip | internal/adapter/telegram/callbackdata.go:224-272 | purpose, user and mask of a wizard button come back; a mask that is none is refused |
| Numerals.ParseFormatInt | internal/adapter/telegram/callbackdata.go:52-62 | every 64-bit integer comes back from its text in any base used |
| Numerals.SplitJoin | internal/adapter/telegram/callbackdata.go:254-264 | fields without the separator come back from their joined text |

## Left out

* HTTP, JSON, SQL text, pgx, Telegram rendering, i18n and screens: a call is its
  outcome (answer, error, deferral), a row a value, a transaction all or nothing.
* Real scheduling and goroutines: a tick, a statement or a critical section is a step
  that may come at any time; the clock is one for all parties and never goes back.
* Roster, search and enrichment CRUD, logo mirroring, host metrics, configuration
  beyond the checks the breaker needs, deployment.
* Personal recaps, milestones, nominations and admin alerts, which ride on
  settlement and completion without deciding anything; in the database a failing
  statement among them would also end their transaction.
* The remaining retention targets, which are the same two statements on other tables.
* `bestTeamSynergy`, `comebackBaselines` and `EventSpecials` apart from the streak and
  the rank formula: sums and filters without a further invariant.
* Merging event tiers and times over a tournament's stages (`betterTier`,
  `earlierTime`, `laterTime`): a maximum and two bounds.
* Saving rankings, crests and countries after a fetch, and the startup refresh's
  comparison of publication dates (`internal/app/enrichment_sync.go:117-260`).
- PaidRunHistory.WeeklyBudget: a request without a usable answer is taken to start one run at most; how many such requests a week sends is not bounded (UnansweredAreUnbounded).
- PaidRunLimits.NoneBesideResultExactlyWhen: like StartBesideResult and StartsExactlyWhen, supposes the list answers its query in full; elsewhere a list may leave runs out.
- PaidRunHistory.OneRunAtATime: speaks of runs this provider has had on record; PaidRunLimits.NoStrays says when that is all of them.
- PaidRunHistory.OneRankingPerWeek: supposes the cluster lock keeps ticks of one source apart; each loss of the record allows one more (RankingsPerWeekExactly).
- PaidRunHistory.NoSilentStall: excludes a run in flight whose record has no start; UndatedRunStallsForever shows what happens to that.
- PaidRun.Provider.FetchRankings: the dataset itself, its size checks and the text of errors are not modelled; an output is its ranking mode or an error.
- OutboxHistory.NoMessageIsLost: supposes a limit on how long a transaction takes, the exact one by NothingIsLostExactlyWhen, and one dispatcher at a time; an accepted send whose reply is lost reads as a failure.
- Outbox.OutboxDispatcher.Dispatch: which publisher supports a type, metrics and logs are not modelled; what publishing each message comes to is a parameter.
- Outbox.OutboxTable.MaintainPartitions: each drop's two transactions run back to back here; OutboxHistory puts other steps between them. Partition dates are UTC.
- Gateway.ProviderGateway.Execute: the last failure's text, metrics and what a provider returns are not modelled.
- Gateway.OutageCallBound: for calls one after the other; concurrent callers can each get one call in while the circuit is closed.
- Settlement.ResultSettlement.Settle: the standings in the message, private recaps and milestones are not modelled; the polls of the match and their votes stay the same over the calls.
- Completion.EventCompletion.CompleteForChat: the chat's topic, the message's contents and its nominations are not modelled.
- CompletionRace.RecapsAreAccountedFor: the advisory lock is a mutex held from its acquisition to the end of the transaction, and a read sees what has committed.
- TeamOrder.MapMatch: a status is ASCII text; letters that fold to one of its letters from outside ASCII (the long s) are not modelled.
- TeamOrder.Catalog.ProcessMatch: other fields of a match, other ways for a save to fail, and what follows the save are not modelled; that the id derived from a provider's number is unique is taken as given, and the score is a value although the code swaps it in place.
- TeamOrder.Catalog.Backfill: what settling and completing then do is not modelled here. Like TeamOrder.Catalog.ProcessMatch it reads and saves in one step: a sync that read a match before a correction and saves it after is not covered.
- TeamOrder.CorrectedAtMostOnce: for fetches that name both teams; CorrectsAtMostOnceExactlyWhen covers the others. Names do not change over a life.
- Streaks.LongestIsLongestStreak: the period and chat filters are taken as applied, and a user's display name as one.
- Standings.BetterIsStrictOrder: for counts that fit 32 bits, as the columns they come from do; larger ones could wrap when multiplied.
- Standings.Winner: one loop for the three nominations the program has three loops for; the message built from the winners is not modelled.
- DigestWindows.DueExactlyInWindow: on wall clocks to the hour; an hour repeated or skipped by a clock change is not told apart.
- DigestWindows.DigestScheduler.Dispatch: a chat's claim and its message are one transaction, the reads before it one outcome; what the report says is not modelled.
- SeriesWindow.CollectSeriesResults: lookups of a window are made in order here, at once in the program; which of them are cancelled after a failure is not modelled.
- TournamentScope.MergedStandings: the leaderboard's limit of 5000 rows is not modelled; ranking the merged rows is Standings.DenseRank.
- MatchSync.CompetitionSynchronization.SelectEventsToSync: what is then done with the tournaments is not modelled.
- CallbackData.AppointFits: gives the exact condition under which the one payload with two ids keeps its scope; the other two-id or free-text payloads are not modelled.
