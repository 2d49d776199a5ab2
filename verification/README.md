# Verified model of the trader-bot safety protocols

This project models, in Dafny, the parts of the trading bot that must stay correct when calls fail,
acknowledgements are lost and processes die, and proves what they guarantee over every run.

* **Canary round trip** (`scripts/account_a_live_trade_executor.py` with its peer
  `scripts/account_a_live_trade_http_adapter.py`). A signed single-use permit is claimed in a durable ledger, then
  RESUME, OPEN, OBSERVE, CLOSE, HALT and a two-phase evidence commit run against an adapter that may fail at any call.
  `Journal` holds the ledger operations, `Payloads` the reply validation, `Venue` the exchange and the adapter's
  close, `ExchangeHistory` its reading of exchange fills, `HostMachine` the machine, `Executor` the executor itself and `Schedule` any number of runs and crashes.
  `Fills` and `Conservation` model the adapter's fill aggregation and financial proof, `Audit` the report's hash chain.
* **Signal feeder** (`scripts/hermes_signal_feeder.py`). `Watcher` is the change filter over the append-only table,
  `Batching` the batch rule, `Persist` the ingress pass, `Delivery` and `Feeder` the bounded re-dispatch of trading
  jobs, `Passing` which rows the delivery cursor passes and what was done with them, `LostRows` the runs in which a row is
  lost, `Cutover` the one-way move to signal execution.
* **Redis janitor** (`scripts/jp24_redis_dead_instance_janitor.py`) in `Janitor`, with lease writers between any two commands.
* **Config apply and rollback** (`scripts/live_node_config.py`) in `NodeConfig`.

## How failure is modelled

The executor, the feeder and the cutover record what they do on a timeline. The durable state (ledger, evidence files,
cursors, pending record, guards) is a function of that timeline, so a crash is a cut to any prefix and a restart is a run
that starts from the state of the prefix. The code is proved to emit only permitted events (`Permitted`, `Lawful`); the
theorems are then proved for every lawful timeline and each of its prefixes. An assignment from `*` is an outcome chosen
by the environment: an adapter reply, the fate of a ledger write, a time budget, an ingress answer. A durable step that
fails may fail before or after its effect. Decimals are reals. `hide` statements only keep definitions out of proofs that
do not need them.

For the exchange property the adapter is connected to an exchange that reports truthfully, accepts each close intent once,
fills orders gradually at any time and may lose any acknowledgement; a history query answers with the exact fill, with nothing, or with a conflict.

## Main results

* One open client order ID is dispatched at most once per mode, ever, and only behind its own write-ahead record
  (`OpenDispatchedAtMostOnce`, `OpenDispatchIsWrittenAhead`, `RunSchedule`).
* Across retries and restarts the protected position is never sold into, and a cleanup that reports safe after a close left
  exactly that position, which is then proved not to be on the opposite side (`RestartCanary`, `SafeCloseRestoresPosition`).
* A cleanup reports safe only on an ordered chain of replies on the timeline, all its close requests are one request on
  the side opposite to the OPEN, and it gives up only when the time is over, its attempts are used up or a reading forbids
  it (`FlattenTargetRisk`).
* An OPEN is sent only after a health check, an acknowledged RESUME, a completed refresh and another check, and never by a
  run that finds its permit known (`FirstRun`, `Execute`).
* A terminal record always names an existing file with the recorded hash, was HALTED just before, and never changes again
  (`CommittedEvidenceExists`, `CommitFollowsHalt`, `CommittedIsAbsorbing`, `EvidenceNeverRewritten`).
* A run reports passed, in a first run or by finishing an earlier run's report, only with a sound journal, HALT, a safe
  cleanup, an exact close and the permit's own notional and loss limits; a first run's fill, price and losses are those of
  the replies on the timeline (`Execute`, `RoundTripOnLog`).
* No batch gets a fourth trading job over any crash schedule, and two jobs of a batch are separated by a recorded failure
  (`RunFeeder`, `AtMostThreeJobs`, `FailureRecordedBetweenJobs`). No row is in a job before ingress accepted it
  (`IngestedBeforeJob`). Whatever the feeder reads of a job has its consequence in the record (`AttemptBatchDelivery`), and a
  poll stops only when nothing is due, a batch is not settled or a step raised (`Poll`).
* Once a cursor file exists, every move of it starts where it is and passes all the changed rows of one batch, whose own
  record is settled (`RunFeeder`, `MoveIsOk`, `CommitIsOk`).
* Whatever persist cursor is on disk, no changed row between the start of its process and it is missing from ingress and
  quarantine (`PollForever`).
* Fill totals are the sums over the distinct trades, whatever the order and repetition of the reports, and a snapshot is
  without warnings if and only if both legs account for every fill (`FoldFills`, `TotalsAreOfDistinctTrades`,
  `FinalSnapshot`).
* A key is only unlinked when no lease that is fresh at that moment names its instance (`RunJanitor`).
* An applied policy changes the risk limits of each config and nothing else (`ApplyPolicy`).
* From any stop of an apply, rollback restores every config byte for byte unless one of its own writes fails; no check of
  its own can refuse (`StopAnywhereThenRollback`).

Four properties that one would expect of the feeder are false of the code; each is stated with a failing run and the exact
condition under which it holds.

* "Every changed row the cursor passes was sent to a trading job, quarantined or announced as skipped." It fails in three
  ways. A row that still joins after its batch was sent is passed with it (`LateRowIsLost`, `LateRowIsPassedUnsent`). A batch
  whose job creation fails three times is skipped even if the announcement fails too, because announcements are best effort
  (`SkipCanBeSilent`, `ThirdRefusalSkips`). A process that finds no cursor file takes the latest row, past whatever an
  earlier process had not finished (`BlindStartLosesRow`). At each move of the cursor file the property holds exactly when
  none of the three applies (`CommitIsOk`, `NoneLostExactly`), and so it does over a run (`NoRowLostExactly`, `RunFeeder`).
  What a start without a cursor file jumps over can be read from the quarantine store and the record on disk
  (`FilesKnowRow`). A selected batch stays as it is exactly when it was already closed, nothing came, or the first new row
  does not join (`BatchStaysExactly`).
* "The cursor passes a batch only when its record is settled." Every batch commit does (`CursorPassesOnlySettledBatches`); the
  cursor passes an unsettled record exactly when it is initialized while that record is on disk
  (`PassesUnsettledExactly`), which can happen only before the first successful save of a cursor (`InitializedOnce`).
* "A process that stops between the cursor save and the removal of the record continues after a restart." If the batch had
  grown since its record was made, the record's last row is not the cursor, start-up keeps the record, and no later poll or
  restart ever delivers anything again (`LateRowStopsDelivery`, `StuckForever`). A committed record is left behind exactly
  when its last row is not the cursor or its quarantine entry covers another range (`StuckExactly`); in the second case with
  an equal cursor the process does not even start (`SignalFeeder.Restart`). An unsettled record passed by an initialization
  is stuck in the same way (`InitializationStrands`, `BlindStartStopsDelivery`).
* "No changed row since the first start is missing before the persist cursor." Since the start of the process that owns the
  cursor file none is ever missing. Since the very first start none is missing exactly when that process did not start past
  one, which it can only if the first save was lost (`CoveredExactly`, `FirstStartSaved`, `LateStartMissesRow`).

## Model

| member | source | states |
|---|---|---|
| Journal.Append | scripts/account_a_live_trade_executor.py:1515-1539 | a history entry gets the next sequence number and the record's new state; earlier entries stay |
| Journal.Lookup | scripts/account_a_live_trade_executor.py:1463-1510 | a record is reached only under its own key with all identity fields equal |
| Journal.ApplyKeepsLedger | scripts/account_a_live_trade_executor.py:1002-1361 | every successful store operation keeps single-use identities distinct, sequence numbers 1..n and all earlier history of every record |
| Protocol.IdentityNamesPermit | scripts/account_a_live_trade_executor.py:1463-1510 | the identity a record is kept under has the permit's own target, IDs, hash and limits, each in its own field |
| Journal.PrepareThenComplete | scripts/account_a_live_trade_executor.py:1108-1198 | a write-ahead is always accepted on an open record, its completion always matches it, clears the pending mark and leaves exactly two entries |
| Journal.ForwardMeansMonotone | scripts/account_a_live_trade_executor.py:49-58 | up to the first recorded recovery, states never decrease in JOURNAL_STATES order, for any pair of entries |
| Journal.MilestonesInOrder | scripts/account_a_live_trade_executor.py:49-58 | a forward history that visited every milestone visited RESUMED, OPEN_SUBMITTED, OPEN_OBSERVED, CLOSE_PENDING, CLOSE_CONFIRMED and HALTED in that order |
| Payloads.ParseObservation | scripts/account_a_live_trade_executor.py:4361-4456 | accepted exactly when every check holds (identity, freshness, hash, fill within the authorization, a priced fill with fresh mark and healthy monitor), and then status, fill, price and loss are the fields of the reply |
| Payloads.ParsePosition | scripts/account_a_live_trade_executor.py:4459-4529 | accepted exactly when identity, source, age and hash check out and the position is FLAT at zero or on the authorized side with a confirmed fill within the authorization; quantity, side and fill are the fields of the reply |
| Payloads.ValidateFinalSnapshot | scripts/account_a_live_trade_executor.py:4532-4659 | accepted exactly when the snapshot has the expected position, no regular or algo orders, the unchanged portfolio hash and consistent PnL arithmetic; the amounts are the fields of the reply |
| Timeline.OpenDispatchedAtMostOnce | scripts/account_a_live_trade_executor.py:1002-1106 | over all runs, permits, outcomes and crash points an open client order ID is dispatched at most once per mode |
| Timeline.OpenDispatchIsWrittenAhead | scripts/account_a_live_trade_executor.py:1887-1894 | at each OPEN dispatch the durable record has OPEN pending with the same request |
| Timeline.FirstAnnouncement | scripts/account_a_live_trade_executor.py:1887-1894 | the write just before an OPEN dispatch is the first OPEN announcement its record ever had |
| Timeline.IdentitiesStayDistinct | scripts/account_a_live_trade_executor.py:1038-1062 | at every crash point permit, intent, open and close IDs are pairwise distinct across the records of a mode and histories are numbered 1..n |
| Timeline.HistoryAppendOnly | scripts/account_a_live_trade_executor.py:1515-1539 | between any two points no record is removed or renamed and histories only grow |
| Timeline.FirstRunNeverStepsBack | scripts/account_a_live_trade_executor.py:1108-1257 | at every crash point a record's states never stepped back before a recovery was recorded |
| Timeline.NoWriteAfterFailure | scripts/account_a_live_trade_executor.py:3197-3323 | after a failed journal write the same run issues no other journal write |
| Timeline.CommittedEvidenceExists | scripts/account_a_live_trade_executor.py:1259-1361 | at every crash point a terminal record names an existing file that hashes to the recorded hash |
| Timeline.CommitFollowsHalt | scripts/account_a_live_trade_executor.py:1314-1361 | a record becomes EVIDENCE_COMMITTED only from HALTED |
| Timeline.EvidenceNeverRewritten | scripts/account_a_live_trade_executor.py:1569-1603 | an evidence file keeps its first content forever |
| Timeline.CommittedIsAbsorbing | scripts/account_a_live_trade_executor.py:1714-1722 | no later run changes anything about a terminal record |
| Timeline.PassedReportHadRoundTrip | scripts/account_a_live_trade_executor.py:2101-2155 | a report prepared as passed has one uninterrupted, correctly ordered round trip in its durable history, is about its own permit and inside that permit's limits |
| Timeline.LawfulIsSound | scripts/account_a_live_trade_executor.py:1002-1361 | the ledger, evidence and history invariants hold after every permitted sequence of events |
| HostMachine.Host.Update | scripts/account_a_live_trade_executor.py:1388-1399 | a ledger update writes exactly the operation's result, or nothing, whatever the caller is told |
| HostMachine.Host.Dispatch | scripts/account_a_live_trade_executor.py:661-707 | an adapter call changes no durable record and may answer anything; with a truthful exchange only true answers |
| HostMachine.Host.Publish | scripts/account_a_live_trade_executor.py:1569-1603 | an evidence file is created only where none exists; a failure is on the timeline and may still have left the file |
| HostMachine.Host.Crash | scripts/account_a_live_trade_executor.py:1709-1755 | after a crash exactly the durable state of the executed prefix remains |
| HostMachine.AnswerTruthfully | scripts/account_a_live_trade_http_adapter.py:838-880 | positions, snapshots and confirmed fills are exact readings of an exchange that only evolved; a close is acknowledged only when proven |
| HostMachine.ExchangeEvolves | scripts/account_a_live_trade_http_adapter.py:882-1170 | at every crash point the exchange is one that evolved from the start |
| Executor.AccountALiveTradeExecutor.JournalPrepare | scripts/account_a_live_trade_executor.py:3072-3100 | a successful prepare is durable before the action; a failed one degrades the journal; the store's guard never refuses it |
| Executor.AccountALiveTradeExecutor.JournalComplete | scripts/account_a_live_trade_executor.py:3102-3130 | a completion always meets its own pending action and moves the state forward |
| Executor.AccountALiveTradeExecutor.RecoveryPrepare | scripts/account_a_live_trade_executor.py:3197-3231 | recovery write-ahead never raises; it succeeds exactly when the journal is enabled and undegraded |
| Executor.AccountALiveTradeExecutor.RecoveryComplete | scripts/account_a_live_trade_executor.py:3233-3269 | an outcome is journaled only after its own prepare; otherwise it is bypassed |
| Executor.AccountALiveTradeExecutor.RecoveryMark | scripts/account_a_live_trade_executor.py:3271-3307 | a reconciled close is recorded as CLOSE_CONFIRMED unless the journal is degraded |
| Executor.AccountALiveTradeExecutor.CancelRemainder | scripts/account_a_live_trade_executor.py:2298-2389 | at most recovery_max_attempts calls and no close; it ends only with an acknowledged cancel, with the time over, or with every attempt made |
| Executor.AccountALiveTradeExecutor.ReadTargetPosition | scripts/account_a_live_trade_executor.py:2391-2503 | one query unless the time is over; a position is returned exactly when the reply on the timeline is usable, with the reply's own fields |
| Executor.AccountALiveTradeExecutor.SubmitFirstClose | scripts/account_a_live_trade_executor.py:2655-2815 | one call unless the time is over; written ahead as CLOSE_PENDING; confirmed exactly when the reply acknowledges the exact quantity |
| Executor.AccountALiveTradeExecutor.ReconcileClose | scripts/account_a_live_trade_executor.py:2505-2597 | a retry repeats the same close request; confirmed exactly when the reply acknowledges the exact quantity |
| Executor.AccountALiveTradeExecutor.CloseOut | scripts/account_a_live_trade_executor.py:2391-2815 | the close loop decides once, on a reading equal to quantity plus baseline, and settles only on a later reading of that baseline; it gives up only with the time over, the attempts used up, or a usable reading that forbids going on |
| Executor.CloseRequestIsWellFormed | scripts/account_a_live_trade_http_adapter.py:882-965 | every close a cleanup decides on has the form, IDs, baseline and the side opposite to the OPEN that the adapter demands |
| Executor.AccountALiveTradeExecutor.VerifyFinalState | scripts/account_a_live_trade_executor.py:2817-2938 | a final state is a validated snapshot for exactly the protected baseline; without one the time was over or every attempt was made |
| Executor.AccountALiveTradeExecutor.FlattenTargetRisk | scripts/account_a_live_trade_executor.py:2275-2965 | never raises; at most 4 * recovery_max_attempts calls; safe only on the full chain of readings and replies on the timeline, and otherwise the time was over, the attempts were used up or a reading forbade it; the open order's cancel was acknowledged or tried to the end; a close is reported exactly when one was acknowledged; every close sells what a Buy opened or buys what a Sell opened, with one quantity, baseline and set of IDs; no OPEN |
| Executor.AccountALiveTradeExecutor.HaltWithRecovery | scripts/account_a_live_trade_executor.py:2967-3070 | halted only on a validated HALT reply on the timeline, then journaled as HALTED; otherwise every attempt was made or time ran out |
| Executor.AccountALiveTradeExecutor.WaitForOpenTerminal | scripts/account_a_live_trade_executor.py:2167-2273 | at most max_observations calls; it returns the first observation on the timeline that is terminal or breaks the notional or loss limit, with the reply's own fill, price and loss, journaled as OPEN_OBSERVED; without one, no usable reply so far was decisive, and a reply was unusable, the journal failed or every observation was made |
| Executor.AccountALiveTradeExecutor.ClaimPermit | scripts/account_a_live_trade_executor.py:1002-1106 | a claim fails exactly when the write does; it is new exactly for an unknown permit, terminal exactly for a committed record, otherwise incomplete with its prepared evidence |
| Executor.AccountALiveTradeExecutor.OpenStep | scripts/account_a_live_trade_executor.py:1863-1931 | OPEN is announced durably before its only dispatch; it succeeds exactly when the journal holds and the reply is a valid acknowledgement, and then the record is OPEN_SUBMITTED |
| Executor.AccountALiveTradeExecutor.ReadyToOpen | scripts/account_a_live_trade_executor.py:1757-1862 | no OPEN before a passed health check, an acknowledged RESUME, a completed refresh and another passed check, in that order; otherwise one of them failed on the timeline or the journal did |
| Executor.AccountALiveTradeExecutor.NoteRecovery | scripts/account_a_live_trade_executor.py:1723-1755 | an incomplete record is marked as recovered before anything else, or the run is degraded |
| Executor.AccountALiveTradeExecutor.FirstRun | scripts/account_a_live_trade_executor.py:1757-2010 | its fill, notional and loss are those of a decisive reply on the timeline, or zero after a setback there; it cleans up exactly on a fill inside the limits and succeeds exactly on a safe exact close with the final loss below the limit, all read on the timeline; every OPEN follows a health check, an acknowledged RESUME, a completed refresh and a second check |
| Executor.AccountALiveTradeExecutor.PrepareReport | scripts/account_a_live_trade_executor.py:1259-1312 | the HALTED guard of prepare_evidence never refuses an undegraded run with HALT proven |
| Executor.AccountALiveTradeExecutor.CommitRecoveredEvidence | scripts/account_a_live_trade_executor.py:3381-3433 | a prepared publication is finished only at its own path with its own hash, creating or reusing the file; its report is this permit's, halted, inside its limits, and passed only with a round trip in the history; it raises only on a failed write or publication or a differing hash |
| Executor.AccountALiveTradeExecutor.PublishReport | scripts/account_a_live_trade_executor.py:2130-2155 | prepare, create, commit in that order; the record becomes terminal only with the file in place; it fails only if the file exists or a write or the publication failed |
| Executor.AccountALiveTradeExecutor.Trade | scripts/account_a_live_trade_executor.py:1709-2084 | one cleanup and one HALT sequence per run, within the call budget; a known permit sends no OPEN and cannot succeed; a first run succeeds exactly with a proven round trip; why it is not safe, not halted or not observed is on the timeline |
| Executor.AccountALiveTradeExecutor.Execute | scripts/account_a_live_trade_executor.py:1673-2165 | at most 3 + max_observations + 5 * recovery_max_attempts adapter calls, all of them the signed permit's own, each OPEN prepared, none for a known permit; the report states the observed fill, notional, loss and close; passed exactly with success, a sound journal, HALT and a safe cleanup, and then the replies on the timeline show a fill and loss inside the permit, its exact close and a final loss below the limit, with committed evidence and all milestones; a run aborts only on a failed write or publication, an existing file or a differing hash |
| Schedule.RunSchedule | scripts/account_a_live_trade_executor.py:1673-2165 | for any permits in any order with a crash after any event: no OPEN twice, distinct identities, every terminal record backed by its file |
| Schedule.SafeCloseRestoresPosition | scripts/account_a_live_trade_executor.py:2505-2815 | with a truthful exchange a safe cleanup after a close left exactly the protected position at the close, the re-read and the final snapshot, and that position is not on the opposite side |
| Schedule.RestartCanary | scripts/account_a_live_trade_http_adapter.py:966-1170 | over any restarts and lost acknowledgements the position stays between the protected quantity and that plus the fill of the OPEN, where a close on the wrong side would leave it, and each safe close left exactly the protected quantity |
| ExchangeHistory.FindItem | scripts/account_a_live_trade_http_adapter.py:1906-1937 | the first evidence item that is about the order and inside the time window decides; one with an unreadable time is an error |
| ExchangeHistory.CollectProofs | scripts/account_a_live_trade_http_adapter.py:1977-2032 | the scan succeeds exactly when every history proof is acceptable, and collects exactly the quantities and venue orders they name |
| ExchangeHistory.ConfirmedFill | scripts/account_a_live_trade_http_adapter.py:1956-2047 | a non-zero quantity is confirmed exactly when the item is executed for it, has a history proof, and all proofs agree on it and on one venue order |
| ExchangeHistory.ProvenIsTrue | scripts/account_a_live_trade_http_adapter.py:1956-2047 | if no acceptable proof misstates the execution, a proven quantity is the executed one |
| ExchangeHistory.ReadFill | scripts/account_a_live_trade_http_adapter.py:1888-2047 | a query on a truthful mirror sees a conflict, nothing, or the exact fill; it is pending exactly when the first relevant item is usable and not executed, or there is none |
| Venue.SubmitCloseAt | scripts/account_a_live_trade_http_adapter.py:882-1170 | acknowledged exactly when an earlier execution of the intent is found exact at the baseline, or none is found, the position supports the close and the polling ends with the exact fill at the exact baseline; an acknowledged close is within the canary maximum and filled completely; the exchange otherwise only evolves |
| Venue.PostClose | scripts/account_a_live_trade_http_adapter.py:1043-1100 | a close is posted, with the side and quantity asked for, exactly when the look before it supports it and none was posted yet; acknowledged exactly when the last look shows the exact fill at the exact baseline |
| Venue.AwaitClose | scripts/account_a_live_trade_http_adapter.py:1100-1170 | the polling acknowledges exactly when its last look shows the exact fill at the exact baseline |
| Venue.FindExistingClose | scripts/account_a_live_trade_http_adapter.py:966-1042 | a retry that finds an execution of the intent concludes without a new order and acknowledges exactly when it is complete and the position is back at the baseline |
| Venue.RepeatedCloseIsNeverProven | scripts/account_a_live_trade_http_adapter.py:1043-1170 | a close computed again after the first one filled can never be proved, and never sells the protected position |
| Fills.CommissionOf | scripts/account_a_live_trade_http_adapter.py:2435-2478 | a commission counts, as its absolute amount, exactly when a currency is stated and every stated one is USDT; otherwise it adds nothing |
| Fills.FoldFills | scripts/account_a_live_trade_http_adapter.py:2103-2247 | the event loop computes, over the distinct trades, the sums of quantity, quantity times price, USDT commission and realized PnL and the numbers of fills with each detail; identity is complete exactly when all fills are identified and consistent |
| Fills.SumTallies | scripts/account_a_live_trade_http_adapter.py:2171-2247 | the totals are the sums and cardinalities of the fills' own fields, for every sequence of fills |
| Fills.FillsForExactly | scripts/account_a_live_trade_http_adapter.py:2103-2170 | every fill of an order reports one of its events field by field, and every event of the order has its fill |
| Fills.FillsForConcat | scripts/account_a_live_trade_http_adapter.py:2103-2170 | the fills of two event lists are those of the one followed by those of the other |
| Fills.DistinctListsOnce | scripts/account_a_live_trade_http_adapter.py:2171-2191 | of identified, consistent fills each is kept exactly once |
| Fills.TotalsAreOfDistinctTrades | scripts/account_a_live_trade_http_adapter.py:2103-2247 | consistent reports of the same trades have equal totals, trade IDs and identity flag |
| Fills.OrderDoesNotMatter | scripts/account_a_live_trade_http_adapter.py:2103-2247 | permuting the events changes nothing |
| Fills.ReplayDoesNotMatter | scripts/account_a_live_trade_http_adapter.py:2103-2247 | re-inserting an identified fill anywhere changes nothing |
| Fills.ContradictionMakesOrderMatter | scripts/account_a_live_trade_http_adapter.py:2171-2191 | swapping two reports of one trade changes the totals exactly when they count differently; the identity flag rejects every such pair |
| Conservation.BestOrder | scripts/account_a_live_trade_http_adapter.py:2061-2102 | the chosen order row is the most filled matching row, the last of equals; failure means a malformed matching row |
| Conservation.SummarizeLeg | scripts/account_a_live_trade_http_adapter.py:1359-1389 | a leg summary means the distinct-trade sums and the most filled order row of its projection; it is degraded, to the empty summary, exactly when the projection or a matching order row is unreadable |
| Conservation.FinalSnapshot | scripts/account_a_live_trade_http_adapter.py:1234-1357 | there is no warning if and only if both legs conserve their order (every fill identified, listed once, detailed, and summing to the row's filled quantity) for the signed side, quantity and price with no shared trade; fees and gross PnL are the sums over the distinct fills, with the cash difference where PnL is incomplete |
| Conservation.LegProvenExactly | scripts/account_a_live_trade_http_adapter.py:2288-2334 | a leg is proven if and only if its order row conserves its fills: each identified, listed once, with positive quantity and price, USDT commission and PnL, summing to the filled quantity |
| Conservation.WarningsExactly | scripts/account_a_live_trade_http_adapter.py:1234-1357 | the warnings add up to zero if and only if both projections are there and conserved for the signed side, quantity and price |
| Conservation.LegAmounts | scripts/account_a_live_trade_http_adapter.py:1359-1389 | fees and PnL of a leg are the sums over its distinct fills, zero when it is unreadable |
| Conservation.DerivedPnlIsCashDifference | scripts/account_a_live_trade_http_adapter.py:1234-1357 | when both legs filled the same positive quantity at positive prices, the derived gross is what was received minus what was paid for the opened side; otherwise it is zero |
| Conservation.AdapterArithmeticIsAccepted | scripts/account_a_live_trade_executor.py:4617-4643 | every snapshot the adapter computes passes the executor's fee, net and loss checks |
| Audit.AuditTrail.Append | scripts/account_a_live_trade_executor.py:480-496 | each event gets the next number and the previous hash, and the head is its hash |
| Audit.HeadDeterminesTrail | scripts/account_a_live_trade_executor.py:470-504 | with a collision-free hash the chain head determines the whole trail |
| Watcher.PreviousVersion | scripts/hermes_signal_feeder.py:655-667 | the latest earlier row of the same message, with nothing of that message in between |
| Watcher.NoEditLost | scripts/hermes_signal_feeder.py:642-676 | at every point of the table the latest fetched row of a message has the text and media of its latest row |
| Watcher.ChangedExactly | scripts/hermes_signal_feeder.py:642-676 | a row is left out exactly when the latest earlier row of its message has the same text and media, missing ones counted as empty |
| Watcher.ChangedIsStable | scripts/hermes_signal_feeder.py:642-676 | appending rows never changes whether an earlier row is fetched |
| Watcher.NewRowsExact | scripts/hermes_signal_feeder.py:642-676 | the query returns exactly the changed rows after the cursor |
| Watcher.PagingIsExact | scripts/hermes_signal_feeder.py:642-676 | continuing from the last row of each page yields every changed row once, in order, for any page size |
| Batching.SelectDeliverableBatch | scripts/hermes_signal_feeder.py:1143-1175 | nothing, or the maximal same-channel prefix within 25 s gaps, 6 rows and 120 s; empty exactly while it is not settled, never once the head is 145 s old |
| Batching.JoinsMeans | scripts/hermes_signal_feeder.py:1143-1175 | a row joins exactly when its channel ID is the first row's (missing and empty are one), it lies within 25 s of the row before, and the caps of 6 rows and 120 s are kept |
| Batching.SettledMeans | scripts/hermes_signal_feeder.py:1143-1175 | a maximal batch is handed on exactly when its last row is 25 s old or 300 s in the future, or a row that only a cap keeps out follows |
| Batching.ReselectionIsStable | scripts/hermes_signal_feeder.py:1143-1175 | with later rows stamped more than 25 s after the newest row, the batch is the same at any later time |
| Batching.BatchStaysExactly | scripts/hermes_signal_feeder.py:1143-1175 | whatever rows are appended, a selected batch stays maximal exactly when it was already closed, nothing came, or the first new row does not join |
| Batching.LateStampGrowsBatch | scripts/hermes_signal_feeder.py:1143-1175 | a settled batch can grow |
| Persist.NextRowCovered | scripts/hermes_signal_feeder.py:997-1025 | moving the cursor to the next fetched row passes only unchanged rows in between |
| Persist.IngressPass.PersistNewMessages | scripts/hermes_signal_feeder.py:997-1025 | each row's answer on the log decides what follows: an inserted row is recorded and passed, a rejected one quarantined and passed, a service failure ends the pass before it; rows are taken in ascending order, every saved cursor covers its rows, an exception leaves the in-memory cursor |
| Persist.PollForever | scripts/hermes_signal_feeder.py:2378-2400 | at every moment of any run the durable cursor misses no changed row since its process started, and none since the first start exactly when that process did not start past one |
| Persist.IngressPass.TakeDeliveryCursor | scripts/hermes_signal_feeder.py:2389-2392 | without a persist cursor the delivery cursor is taken in memory and its save may be lost |
| Persist.CoveredExactly | scripts/hermes_signal_feeder.py:2389-2400 | a durable cursor covers every changed row since the first start if and only if the process that owns it did not start past an undealt one |
| Persist.FirstStartSaved | scripts/hermes_signal_feeder.py:2389-2400 | if the first start was the one saved, no changed row is ever missing |
| Persist.LateStartMissesRow | scripts/hermes_signal_feeder.py:2389-2392 | a lost first save followed by a later start can miss a row |
| Delivery.AtMostThreeJobs | scripts/hermes_signal_feeder.py:1710-1740 | at every crash point a batch key has at most MAX_ATTEMPTS trading jobs |
| Delivery.FailureRecordedBetweenJobs | scripts/hermes_signal_feeder.py:2009-2029 | two jobs of one batch are separated by a durably recorded failed attempt |
| Delivery.IngestedBeforeJob | scripts/hermes_signal_feeder.py:1642-1707 | at every crash point, each row of a trading job was accepted by ingress before the job was created |
| Delivery.CursorPassesOnlySettledBatches | scripts/hermes_signal_feeder.py:2402-2415 | a batch commit starts from the durable cursor, or from the cursor in memory while there is none, and passes only the batch of a record that is succeeded, skipped or quarantined; unless skipped, something of it was sent |
| Delivery.InitializedOnce | scripts/hermes_signal_feeder.py:2382-2388 | after the first write of the cursor file every later one is a batch commit |
| Delivery.RecordPersists | scripts/hermes_signal_feeder.py:2382-2388 | while there is no cursor file, every job, notice and batch entry belongs to the one record on disk |
| Delivery.SuccessWasDelivered | scripts/hermes_signal_feeder.py:1827-1924 | a durable success was preceded by a job read as ok that had no delivery error or was re-sent successfully |
| Delivery.StuckExactly | scripts/hermes_signal_feeder.py:426-449 | a settled record behind the cursor is left by start-up exactly when its last row is not the cursor or its quarantine entry covers another range |
| Passing.ChosenCoversRange | scripts/hermes_signal_feeder.py:642-676 | every changed row between the cursor and the end of the selected batch is in the batch |
| Passing.ExtentIsExact | scripts/hermes_signal_feeder.py:2075-2209 | of the selected batch exactly the first rows were sent or quarantined; all rows were handled exactly when no row joined after them without announcement and no row of a skipped batch is unannounced |
| Passing.CommitIsOk | scripts/hermes_signal_feeder.py:2402-2415 | a batch commit passes exactly the changed rows since its start, with their own settled record, the exact part that was sent and the exact condition for every row being handled |
| Passing.MoveIsOk | scripts/hermes_signal_feeder.py:2382-2415 | with a cursor file every move starts at it and is a batch commit; an initialization takes the latest row |
| Passing.PassesUnsettledExactly | scripts/hermes_signal_feeder.py:2382-2415 | the cursor passes an unsettled record if and only if it is initialized while that record is on disk |
| Passing.InitializationStrands | scripts/hermes_signal_feeder.py:426-449 | a record on disk at an initialization is stuck exactly when it is not reconcilable, always when it is unsettled |
| Passing.FilesKnowRow | scripts/hermes_signal_feeder.py:2382-2388 | while there is no cursor file, a row was handled exactly when it has an entry of its own or the record's jobs, entry or notices include it |
| Passing.NoneLostExactly | scripts/hermes_signal_feeder.py:2382-2415 | a move of the cursor file loses no row exactly when it leaves no batch row unhandled and jumps over none |
| Passing.NoRowLostExactly | scripts/hermes_signal_feeder.py:2382-2415 | over a whole log, every changed row passed since the first start was handled if and only if no move left a row unsent and unannounced or jumped over one |
| Feeder.SignalFeeder.RecordFailure | scripts/hermes_signal_feeder.py:1710-1740 | a failure adds exactly one attempt, drops the job, creates none, and waits 120 s per attempt; the third one tries to announce every row, with whatever result, and skips the batch; it raises exactly when a save does |
| Feeder.SignalFeeder.ObserveJob | scripts/hermes_signal_feeder.py:2116-2139 | the answer is read first and decides: none leaves the record, a brain failure is one more attempt, an answer is confirmed by the job record |
| Feeder.SignalFeeder.ConfirmJob | scripts/hermes_signal_feeder.py:1827-1924 | the retained job record decides: a failed run is one more attempt, a clean run a success, an absent, unread or unfinished one leaves the record as it is |
| Feeder.SignalFeeder.DeliverAnswer | scripts/hermes_signal_feeder.py:1852-1924 | a clean run is a success; a first uncertain error waits 300 s without a re-send; otherwise one re-send is made and counted while fewer than 3 were, or 1 when uncertain, and its result decides between success, another try in 30 s and manual review, exactly |
| Feeder.SignalFeeder.RecoverUncertainDispatch | scripts/hermes_signal_feeder.py:2009-2029 | what the lookup says decides: a failed one leaves the record, an absent job is a failed attempt, a found one is observed under its own ID; nothing is created |
| Feeder.SignalFeeder.LookUpJob | scripts/hermes_signal_feeder.py:1404-1428 | the lookup's answer is on the log and names only a job that was created |
| Feeder.SignalFeeder.EnsureIngress | scripts/hermes_signal_feeder.py:1642-1707 | it goes on only when every row of the batch was accepted by ingress and remembered; a refused row puts the batch off for 15 s |
| Feeder.SignalFeeder.IngestRow | scripts/hermes_signal_feeder.py:1642-1707 | one row: accepted and remembered in the record before the next, or refused and put off for 15 s |
| Feeder.SignalFeeder.BlockUnroutable | scripts/hermes_signal_feeder.py:1980-2006 | an unroutable batch is quarantined durably before its status says so, with all its rows unless an entry under its key exists |
| Feeder.SignalFeeder.DispatchJob | scripts/hermes_signal_feeder.py:2161-2209 | the dispatching record is durable, then a job with all rows is created or refused, then the scheduler or the job is asked; success means all rows were sent, or an earlier job was found |
| Feeder.SignalFeeder.CreateJob | scripts/hermes_signal_feeder.py:2177-2209 | a created job carries all rows of the batch, whether or not its ID comes back |
| Feeder.SignalFeeder.StartAttempt | scripts/hermes_signal_feeder.py:2138-2209 | a fresh attempt goes on until ingress refuses a row, the batch is unroutable, or a job was asked for and its answer read; it settles only by sending or quarantining every row, by an earlier job or entry, or by trying every announcement |
| Feeder.SignalFeeder.AttemptBatchDelivery | scripts/hermes_signal_feeder.py:2075-2209 | every answer read on the way has its consequence (a failed run or brain failure is one more attempt, a clean run a success, no answer leaves the record, an unroutable batch is quarantined, an absent job is a failure); an attempt that is due reads one, and it raises exactly when a step does; an outcome that moves the cursor comes with a settled record of this batch; one whose job or result exists sends nothing new; a record of another batch, or one waiting for its time, is not touched |
| Feeder.SignalFeeder.DeliverBatches | scripts/hermes_signal_feeder.py:2402-2415 | the loop ends only when a step raised, no batch is due, or the selected batch was tried and is not settled; the cursor only moves forward through settled batches; a record behind the cursor stops everything; a settled record is followed by its cursor move and nothing else |
| Feeder.SignalFeeder.DeliverNext | scripts/hermes_signal_feeder.py:2402-2415 | one round attempts exactly the selected batch, goes on exactly when it settled and was committed, and otherwise leaves the cursor |
| Feeder.SignalFeeder.CommitBatch | scripts/hermes_signal_feeder.py:421-423 | the cursor file moves to the batch's last row before the record is removed; a step that raises leaves the cursor ahead in memory |
| Feeder.SignalFeeder.Poll | scripts/hermes_signal_feeder.py:2378-2420 | without a cursor the latest row is taken before its save is tried; with a record on disk that is then all that happens; otherwise the poll raises exactly when a step does and else leaves delivery as far as it can go |
| Feeder.SignalFeeder.Restart | scripts/hermes_signal_feeder.py:421-449 | after a crash the cursor is the durable one; the record is cleared exactly when it is reconcilable, and the start is refused exactly when a committed quarantine entry disagrees |
| Feeder.RunFeeder | scripts/hermes_signal_feeder.py:2307-2425 | over any polls, growth of the table and crash points: at most three jobs per batch, a recorded failure between two jobs, every row of a job accepted by ingress before, each cursor move as in MoveIsOk, no row lost exactly when no move is lossy, an unsettled record passed exactly by an initialization over it |
| Feeder.StuckForever | scripts/hermes_signal_feeder.py:421-449 | from a stuck record no polls or restarts create a job, move the cursor or change the record |
| LostRows.LateRowIsLost | scripts/hermes_signal_feeder.py:2075-2209 | a permitted log in which a changed row is passed without job, quarantine or report and the record is stuck |
| LostRows.LateRowIsPassedUnsent | scripts/hermes_signal_feeder.py:2402-2415 | from the moment the late row is there, a successful attempt leaves it unhandled and the next write is the cursor past it |
| LostRows.LateRowStopsDelivery | scripts/hermes_signal_feeder.py:421-449 | restarted on that log, the feeder never delivers again |
| LostRows.SkipCanBeSilent | scripts/hermes_signal_feeder.py:1274-1292 | a permitted log in which a row is passed with no job, no entry and no announcement although nothing joined late |
| LostRows.ThirdRefusalSkips | scripts/hermes_signal_feeder.py:1710-1740 | from the third announcement, a skip created no job and the row was handled exactly when its announcement got through |
| LostRows.BlindStartLosesRow | scripts/hermes_signal_feeder.py:2382-2388 | a permitted log in which an initialization passes a record still observed and a row nobody got |
| LostRows.BlindStartStopsDelivery | scripts/hermes_signal_feeder.py:2382-2388 | found without a cursor file, that record makes delivery stop once the new cursor is saved |
| Cutover.InitializeCutover | scripts/hermes_signal_feeder.py:208-250 | existing guards are kept, new ones pinned to the cutoff and high water; it fails exactly on active legacy work or a differing cutoff |
| Cutover.RowNeverFlips | scripts/hermes_signal_feeder.py:253-274 | under any later configuration a guarded row never moves between history and signal and never returns to legacy |
| Cutover.DispatchModeExactly | scripts/hermes_signal_feeder.py:253-274 | for each of the six answers the exact condition on opt-in, guard, cutoff and row: signal exactly for an opted-in, guarded account's row after high water and not before the cutoff |
| Cutover.RowsBeforeEnableAreNeverSignal | scripts/hermes_signal_feeder.py:208-274 | a row that existed when its account was first enabled is never executed as signal or legacy again |
| Cutover.GuardsOnlyGrow | scripts/hermes_signal_feeder.py:208-250 | a durable guard is never changed or removed |
| Cutover.NoLegacyJobOnceGuarded | scripts/hermes_signal_feeder.py:2042-2073 | no legacy job follows for a guarded account, opted in or not |
| Cutover.TasksNeverFlip | scripts/hermes_signal_feeder.py:253-274 | one row of one account is never tasked both as signal and as history |
| Cutover.RunBoots | scripts/hermes_signal_feeder.py:2355-2363 | over any sequence of restarts, configurations and crash points the log is exactly the guards each start pins and the rows it hands on, up to the crash; no legacy job for a guarded account, no row tasked both as signal and as history |
| Cutover.RunBoot | scripts/hermes_signal_feeder.py:2355-2363 | one start writes exactly its new guards, then one decision and its job or task per row, or nothing when refused |
| Janitor.InstanceOf | scripts/jp24_redis_dead_instance_janitor.py:33-41 | a recognized key is the prefix, a non-empty namespace of allowed characters, a UUID4 between colons and a rest without line breaks |
| Janitor.InstanceKeyRecognized | scripts/jp24_redis_dead_instance_janitor.py:33-41 | every key built for an instance is recognized as that instance's |
| Janitor.CharactersMean | scripts/jp24_redis_dead_instance_janitor.py:33-41 | hex digits and namespace characters are exactly the two character classes of the patterns |
| Janitor.Uuid4Means | scripts/jp24_redis_dead_instance_janitor.py:33-41 | an instance ID is 36 characters of lower-case hex and dashes at 8, 13, 18 and 23, with version 4 and variant 8, 9, a or b |
| Janitor.Redis.AtomicDelete | scripts/jp24_redis_dead_instance_janitor.py:43-72 | the script deletes exactly when every fresh lease is readable and none names the instance; PROTECTED means one with score at least now minus the maximum age does |
| Janitor.Redis.LoadWhitelist | scripts/jp24_redis_dead_instance_janitor.py:421-476 | every lease is read once; the whitelist is exactly the instances of the leases read as fresh, all UUID4s |
| Janitor.DeadInstanceKeys | scripts/jp24_redis_dead_instance_janitor.py:496-524 | the candidates are exactly the scanned per-instance keys outside the whitelist, each once |
| Janitor.RunJanitor | scripts/jp24_redis_dead_instance_janitor.py:244-324 | at every unlink no lease with a score inside the age limit at that server time named the key's instance; the skipped keys are exactly the refused ones and a lease fresh since the run began named each; keys are candidates outside the whitelist; the count is exact; a dry run deletes nothing; it succeeds exactly when no command failed |
| NodeConfig.TargetRiskIsValid | scripts/live_node_config.py:440-454 | the policy target passes the validation applied to existing configs |
| NodeConfig.ApplyTwiceIsApplyOnce | scripts/live_node_config.py:842-895 | applying the policy to an applied config is accepted and gives identical bytes |
| NodeConfig.OneAccountPerPath | scripts/live_node_config.py:866-873 | the account identity check makes the config paths distinct |
| NodeConfig.ReadConfigs | scripts/live_node_config.py:850-895 | a plan is made exactly when every config is readable, its account's own and without risk or at captured or target risk; each planned file is the updated config of its account |
| NodeConfig.AcceptedExactly | scripts/live_node_config.py:850-895 | a config is accepted exactly when it parses, is its account's own and its risk, if it has one, is well formed and the captured one or the policy's |
| NodeConfig.UpdatedIsPolicyWritten | scripts/live_node_config.py:887-895 | with a faithful codec the written bytes parse to the original config, account and rest unchanged, with every cap at the policy's and the captured rates in their own fields |
| NodeConfig.WriteBackup | scripts/live_node_config.py:897-930 | the prepared manifest exists only after every original is backed up; configs are untouched |
| NodeConfig.WriteConfigs | scripts/live_node_config.py:931-953 | success means every config is the whole new file, re-read with the expected hash, and the manifest says applied; restorable throughout; with a round-tripping codec only a write can fail |
| NodeConfig.Rollback | scripts/live_node_config.py:961-1007 | from any safe state with a manifest every original comes back byte for byte unless a write fails; the entry, account and hash checks never refuse |
| NodeConfig.ApplyPolicy | scripts/live_node_config.py:842-958 | when applied, every config on disk parses to the original with only risk replaced: every instrument cap at the target, the default cap at the default, the captured rates in their own fields; at every moment each config is a whole old or new file, unchanged until the manifest exists and restorable from then on; refused exactly when a config or the backup directory is unsuitable, and then nothing is written |
| NodeConfig.StopAnywhereThenRollback | scripts/live_node_config.py:961-1007 | stopping an apply at any moment and rolling back in a new process gives back the original files; it fails exactly when one of its writes fails |

## Left out

- OpenSSL signature checks, file ownership and mode checks, file locks and fsync: foreign calls; only atomic replace and create-if-absent remain. The operation lock is assumed held.
- Document-by-document authorization validation: only the checks repeated by `_validate_authorization_for_execution` are modelled, with clocks as free outcomes.
- Signals raised at arbitrary instructions: failures come from adapter calls, journal writes and file writes.
- HostMachine.Host.Update: a live journal write that times out and lands later in the same process is modelled as landing at the call; no later journal write of that run is issued, so the durable ledger is the same.
- Protocol.IdentityOf: the authorization hash is taken to determine the two limits it covers, so records carry them beside it.
- Journal timestamps, result payloads and the audit events inside evidence reports: in-memory or descriptive data without an invariant here.
- Venue.SubmitCloseAt: the not-before windows and deadlines of exchange evidence are not modelled; they only turn an acknowledgement into an error.
- Schedule.RestartCanary: one canary at a time on its exchange; trades by others on the same symbol are not modelled.
- Deadlines and sleeps of the recovery loops: each budget check is a free outcome; one that fails is on the timeline.
- Parsing of decimals, currencies and JSON in replies: fields arrive parsed or absent; a malformed reply is a rejected one.
- HTTP transport, control-plane commands other than the close, node telemetry and the loss monitor of the adapter.
- Feeder prompts, Telegram sending, media copying and channel context files: only their outcomes occur.
- Feeder.SignalFeeder.AttemptBatchDelivery: the branch for opted-in or guarded accounts is modelled in `Cutover`, not here, and the dry-run branch and the legacy-cursor migration are left out.
- Feeder.SignalFeeder.RecoverUncertainDispatch: the job scheduler is assumed to know only jobs that were created under the name.
- Persist.IngressPass.TakeDeliveryCursor: the delivery cursor is a free value here; `Delivery` says how it moves.
- Feeder.SignalFeeder.QuarantinePoisonRows: the ingress pass is modelled in `Persist`; delivery sees only the entries it may add to the shared quarantine store.
- Batching.SelectDeliverableBatch: channels are compared by channel ID; the fallback to channel names is not modelled.
- Cutover.DispatchMode: the dry-run preview of guards is not modelled.
- The regular-expression classification of ingress errors: it is a free choice between a rejected row and a service failure.
- Janitor BGSAVE heuristics and memory reports: the backup is an earlier step.
- NodeConfig.Updated: rate formats are an abstract predicate, caps are numbers instead of formatted text, and JSON reading and writing is a pair of functions assumed to round-trip where a lemma needs it.
- NodeConfig.WriteConfigs: file modes and owners are left out.
- container-patches, quant-lab, engine, the bootstrap and image scripts: outside this model.
