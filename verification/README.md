# fincore-mevi: a verified model

fincore-mevi is an event-sourced banking backend: an account service and a ledger service with an event
log, snapshots, projections and a transactional outbox each, relays that publish the outbox, an API gateway
with a rate limiter, an auth service with a login limiter and Argon2id password hashes, an audit service with
a hash chain, and a payment aggregate. This project models that logic in Dafny and proves what every run of it
keeps.

How the model is built:

* A transaction (`WithTx`) is one atomic step that commits whole or rolls back whole, and steps are
  serial. Each transaction takes a fault: none, a failing call, or a commit that takes effect but is reported
  as failed. Crashes, retries and worker ticks fall anywhere between transactions.
* Clocks, fresh identifiers, random salts, sequence gaps and faults are parameters. Nothing assumes that
  identifiers are fresh: the unique indexes refuse a row that repeats one.
* What the source updates in place is a class whose methods are proved equal to a function of the old state
  (`AccountService.Database`, `LedgerService.Database`, `OutboxRelay.Relay`, `TokenBucket.Guard`,
  `LoginLimiter.Limiter`, `AccountDomain.Account`, `Payment.Aggregate`, ...); runs are sequences of steps over
  those functions, and the main results hold for every sequence.
* 64-bit arithmetic is written out where it can matter (`Common.Wrap64`, the ledger's guard and deltas, the
  audit counter). The token bucket works over reals.

| files | what they model |
|---|---|
| `Common`, `Text`, `EventLog` | results and money; `strings`; the event table and its queries |
| `AccountDomain`, `AccountService`, `AccountRuns`, `AccountTransactions` | the account aggregate, its transactions, every run of them, and what each transaction answers and writes |
| `LedgerService`, `LedgerPosting`, `LedgerRuns`, `LedgerWorker` | what a posting answers and writes; posting entries, the balance projection worker with postings between its additions, every run of them |
| `MoneyMovement`, `MoneyArrives`, `KeyReuse` | deposits and withdrawals across both services with crashes and retries; a request that goes through; a key that comes with two requests |
| `ProjectionWorker`, `LiveProjection`, `ProjectionProgress` | the account projection worker alone, and interleaved with live handlers; that it catches up |
| `CausalRead` | the balance query that waits for a sequence number |
| `OutboxRelay`, `RelayFleet`, `RelayProgress` | one relay; several relays with row locks and skip-locked queries; what they take next and that nothing waits for ever |
| `TokenBucket`, `Gateway` | one bucket over its history; keys, limiters and interleaved requests |
| `LoginLimiter`, `LoginRuns` | the limiter in place; its refinement and bounds |
| `AuditChain` | the hash chain under interleaving, its validation and what it binds |
| `Base64`, `Decimal`, `Argon2id` | the password hash string |
| `HeaderList` | roles and permissions through a comma-separated header |
| `Payment` | the payment aggregate and its histories |

Where a property does not hold of the code as it stands, the code is modelled as it is, and the exact
condition is proved:

* The ledger's projection worker is wired with projection version 1, the row that `PostEntry` itself updates.
  A worker that has caught up then counts every entry twice, and once more for every time that a failed batch or
  a restart, which begins at sequence 0, made it fall back behind that entry (`LedgerWorker.CaughtUpWorker`,
  `LedgerWorker.EveryPostingDoubles`, `LedgerWorker.RestartTriples`). If and only if the worker writes another
  version, the served balance equals the log in every run, is never negative, and the withdrawal guard never
  leaves 64 bits (`LedgerWorker.ConservationIffSeparateRow`, `LedgerWorker.NonNegativeIffSeparateRow`,
  `LedgerWorker.GuardFitsIffSeparateRow`, with the run `LedgerWorker.SharedRowGoesNegative`). On any version, no
  withdrawal that commits has wrapped around (`LedgerRuns.CommittedWithdrawalFits`).
* A message whose `created_at` lies before that of a published one, because its transaction committed late,
  breaks the relay's order. The order holds at every moment if and only if no such message is accepted
  (`OutboxRelay.InOrderIffTimely`, with the run `OutboxRelay.LateMessage`).
* The ledger answers a recorded key with the recorded entry without comparing the request. A reply, or an
  account event, speaks of its own request's money if and only if the request that recorded the key asked for the same
  (`MoneyMovement.AnswerMovesIff`, `MoneyMovement.ReplyMovedTheRequest`, `MoneyMovement.EventNamesItsEntry`, with
  the run `KeyReuse.ReusedKeyAnswersOtherMoney`).
* Concurrent audit saves can fork the chain. The log validates if and only if no insert falls between a
  save's fetch and its insert, and a fetch fails only for the first row (`AuditChain.ValidatesIffUndisturbed`,
  with the run `AuditChain.OverlapForks`).
* `ValidateIntegrity` does not ask why its rows ended, so its verdict is about the rows it was given
  (`AuditChain.ShortReadIsShortLog`, `AuditChain.ShortReadHidesRows`).
* The login limiter's pruning presumes a clock that does not run back. A failure is kept if and only if it is
  later than the window before every pruning call since, whatever the clock does (`LoginRuns.KeptExactly`, with the
  run `LoginRuns.ClockMustNotRunBack`).
* A header list comes back unchanged if and only if its elements are comma-free, trimmed and not empty
  (`HeaderList.HeaderIdentityIff`).

## Model

| member | source | states |
|---|---|---|
| `MoneyMovement.ExactlyOnce` | services/account-service/application/commands/deposit_withdraw.go:66-142 | over every run with crashes, faults and retries: keys and ledger entries are in bijection, all successful replies for a key carry the same entry id, each is backed by an event of its account's stream, and every entry id in a stream exists in the ledger |
| `MoneyMovement.EventForEachReply` | services/account-service/application/commands/deposit_withdraw.go:72-140 | over every run, the successful replies for an account, a direction and an entry are at most as many as that account's events for them, so no two replies share an event |
| `MoneyMovement.BalancesCountKeysOnce` | services/ledger-service/application/commands/post_entry.go:56-143 | over every run, with postings between any additions of the ledger's worker: each balance is the signed sum over recorded keys, each counted once, and is never negative; with a worker on the served row, exactly what it replayed comes on top |
| `MoneyMovement.ReplyMovedTheRequest` | services/ledger-service/application/commands/post_entry.go:57-62 | over every run, a successful reply names an entry of its own request's account, direction and amount if and only if the request whose posting recorded its key asked for the same |
| `MoneyMovement.AnswerMovesIff` | services/ledger-service/application/commands/post_entry.go:56-64 | one call: the answer names an entry for the request if and only if the key is new or was recorded for such an entry |
| `MoneyMovement.EventNamesItsEntry` | services/account-service/application/commands/deposit_withdraw.go:81-98 | over every run, a money event carries the entry of some key, and that entry is of the event's own account and direction if and only if the request that recorded the key was |
| `KeyReuse.ReusedKeyAnswersOtherMoney` | services/ledger-service/application/commands/post_entry.go:57-62 | a run for any deposit and any other movement under the same key: the second request succeeds with the first one's entry, which is not an entry for it, and its stream gets an event that names it |
| `MoneyMovement.RetryIsIdempotentOnLedger` | services/ledger-service/application/commands/post_entry.go:56-62 | any request under a recorded key, a retry or not, leaves the ledger unchanged, is answered with the recorded entry, and adds exactly one more account event with that entry's id |
| `MoneyMovement.LedgerProjects` | services/account-service/application/commands/deposit_withdraw.go:66-69 | the ledger's part of every run of the system is itself a run of the ledger |
| `MoneyMovement.Handle` | services/account-service/application/commands/deposit_withdraw.go:55-142 | the handler is its guards, then the ledger's transaction, then (only if that succeeded) the account's transaction; each error leaves what it must |
| `MoneyArrives.RequestSucceeds` | services/account-service/application/commands/deposit_withdraw.go:55-142 | from any reachable state, a valid request under a new key, for an opened account, with new identifiers and money enough, ends with its own new entry, one ledger posting and one account event |
| `MoneyArrives.MoneyMoves` | services/account-service/application/commands/deposit_withdraw.go:55-142 | and its account's balance moves by exactly the amount, no other balance at all |
| `MoneyArrives.RefusedBeforehand` | services/account-service/application/commands/deposit_withdraw.go:55-64 | a request is refused before the ledger is called if and only if account, key, currency or amount is wrong, with the error of the first of these |
| `AccountRuns.SnapshotSoundness` | services/account-service/application/commands/deposit_withdraw.go:233-282 | in every reachable database versions of a stream are 1..n beginning with the opening, the tail after the latest snapshot is shorter than 50 and is read whole, the snapshot is the replay of its prefix, and loading equals replaying the whole stream |
| `AccountRuns.HandlersKeepReadSide` | services/account-service/application/commands/deposit_withdraw.go:104-133 | with handlers only, every projection row is the replay of its stream, no other rows exist, and the outbox mirrors the log in order |
| `AccountTransactions.RecordMoneyAnswers` | services/account-service/application/commands/deposit_withdraw.go:72-140 | over every run: an account never opened is not active, and an opened one takes its next event if and only if the identifiers are new; no version or snapshot is ever refused |
| `AccountTransactions.RecordMoneyWrites` | services/account-service/application/commands/deposit_withdraw.go:81-137 | it then writes the next event of the stream, its message and its projection row, and one snapshot exactly every fiftieth time |
| `AccountTransactions.RecordedIff` | services/account-service/application/commands/deposit_withdraw.go:87-137 | for any database, the writes go through if and only if no unique index refuses the row, a due snapshot or the message |
| `AccountTransactions.FailedCallRollsBack` | services/account-service/application/commands/deposit_withdraw.go:72-140 | a failing call leaves the database as it was and is reported |
| `AccountTransactions.FailedSnapshotRollsBack` | services/account-service/application/commands/deposit_withdraw.go:99-103 | a failing snapshot save rolls back exactly every fiftieth event, and is not made otherwise |
| `AccountTransactions.LostCommitStays` | services/account-service/application/commands/deposit_withdraw.go:72-140 | a commit that takes effect but is reported as failed leaves what a good one leaves |
| `AccountService.Database.Load` | services/account-service/application/commands/deposit_withdraw.go:233-266 | loads the account that snapshot plus tail determine, or the first decoding error |
| `AccountService.Database.Record` | services/account-service/application/commands/deposit_withdraw.go:72-140 | the account transaction equals its specification under every fault: all of event, snapshot, projection row and message, or nothing |
| `AccountService.Database.Write` | services/account-service/application/commands/deposit_withdraw.go:87-137 | the writes commit together, and any failing call restores the database |
| `AccountService.Database.WriteLog` | services/account-service/application/commands/deposit_withdraw.go:87-103 | the log row and, every 50 versions, the snapshot; succeeds exactly if no index or fault refuses |
| `AccountService.Database.WriteReadSide` | services/account-service/application/commands/deposit_withdraw.go:104-133 | the projection row and the message; succeeds exactly if no index or fault refuses |
| `AccountService.Database.SaveSnapshot` | services/account-service/application/commands/deposit_withdraw.go:268-282 | adds the loaded state stamped with the new version, unless that version is taken |
| `AccountService.Database.Open` | services/account-service/application/commands/open_account.go:37-120 | opening equals its specification under every fault |
| `AccountTransactions.OpenAnswers` | services/account-service/application/commands/open_account.go:37-120 | every answer, for every database: which guard or index refuses, else the new account's id |
| `AccountTransactions.OpenWrites` | services/account-service/application/commands/open_account.go:47-111 | a good opening writes the first event, its message and its projection row |
| `AccountTransactions.OpenOkIff` | services/account-service/application/commands/open_account.go:37-120 | under any fault the reply is Ok if and only if the opening was committed and reported, and it names the stream that got it |
| `AccountService.Decode` | services/account-service/application/commands/deposit_withdraw.go:254-261 | decodes every row or stops with the first error |
| `AccountService.LatestSnapshotIsLatest` | pkg/eventstore/postgres/store.go:115-133 | the snapshot loaded is of that aggregate and none of it is newer; none is loaded only if there is none |
| `AccountDomain.StoredHistoryReplays` | services/account-service/application/commands/deposit_withdraw.go:284-319 | a history read back from storage, where money events lose their amount, replays to the same state from any start |
| `AccountDomain.StoredEventsReplay` | services/account-service/domain/account.go:110-125 | storing an event loses exactly its amount, which replay does not read |
| `AccountDomain.DecodesIff` | services/account-service/application/commands/deposit_withdraw.go:284-319 | exactly which stored documents decode, and the error of the others |
| `AccountDomain.ReplayConcat` | services/account-service/domain/account.go:136-143 | replaying in two parts, as from a snapshot, equals replaying at once |
| `AccountDomain.FrozenAndClosedAreFinal` | services/account-service/domain/account.go:62-82 | over any commands an opened account raises at most one further event: frozen and closed are both final |
| `AccountDomain.CommandsMove` | services/account-service/domain/account.go:62-82 | an active account is frozen by a freeze and closed by a close, with one event; in every other status nothing changes, with the error of that status or, for a second close, none |
| `AccountDomain.Account.Raise` | services/account-service/domain/account.go:104-108 | the state after raising is the replay of the event, which is appended to the changes |
| `AccountDomain.Account.Freeze` | services/account-service/domain/account.go:62-71 | reply, events raised and state agree with the decision function |
| `AccountDomain.Account.Close` | services/account-service/domain/account.go:73-82 | reply, events raised and state agree with the decision function; closing twice is silent |
| `AccountDomain.Account.PullChanges` | services/account-service/domain/account.go:94-98 | hands over all changes and leaves none |
| `AccountDomain.NewAccount` | services/account-service/domain/account.go:44-55 | refuses an empty customer, else returns the replay of its one opening event |
| `AccountDomain.RehydrateFromSnapshot` | services/account-service/domain/account.go:127-143 | the loop computes the replay, with no pending changes |
| `EventLog.Append` | pkg/eventstore/postgres/store.go:31-43 | runs the inserts in order and stops at the first refusal; `AppendFailsIff` and `AppendAdds` say when that is and what is added |
| `EventLog.AppendFailsIff` | pkg/eventstore/postgres/store.go:31-43 | an append fails if and only if one of its events repeats an id, or an aggregate's version, of the table or of an event before it |
| `EventLog.AppendAdds` | pkg/eventstore/postgres/store.go:31-43 | otherwise it adds exactly one row per event, in order, behind the table and above its sequence |
| `EventLog.Read` | pkg/eventstore/postgres/store.go:45-72 | returns the rows of one aggregate above a version, in version order, up to the limit (1000 if none is given) |
| `EventLog.ReadAll` | pkg/eventstore/postgres/store.go:74-104 | returns exactly the next rows above the cursor, and the cursor it returns has passed exactly those |
| `EventLog.ReadIsSlice` | pkg/eventstore/postgres/store.go:45-72 | on a stream numbered 1..n a read from a version is the slice of the stream after it |
| `EventLog.SmallestAfterIsLeast` | pkg/eventstore/postgres/store.go:49-53 | the next row of a versioned read is the least above the version, and none is returned only if there is none |
| `EventLog.BatchAdvances` | pkg/eventstore/postgres/store.go:74-104 | the cursor after a batch has passed exactly that batch |
| `LedgerRuns.LedgerConservation` | services/ledger-service/application/commands/post_entry.go:64-136 | in every run keys and entries are in bijection and the posted entries sum to the outbox deltas; while the worker keeps off the served row each balance is that sum, never negative, and no withdrawal guard leaves 64 bits; on the served row it is that sum plus what the worker replayed, and the guard stays within 64 bits if and only if that is at least -1 |
| `LedgerRuns.GuardFitsIff` | services/ledger-service/application/commands/post_entry.go:69-75 | no valid withdrawal makes the guard leave 64 bits if and only if the balance is at least -1 (or the account id is empty) |
| `LedgerRuns.GuardRefusesIff` | services/ledger-service/application/commands/post_entry.go:69-75 | the wrapping guard refuses a withdrawal if and only if its difference is a negative 64-bit number |
| `LedgerRuns.CommittedWithdrawalFits` | services/ledger-service/application/commands/post_entry.go:64-109 | in any database, a withdrawal that commits had its difference inside 64 bits and leaves the served row at that difference, which is not negative |
| `LedgerRuns.ServedBalanceExplained` | services/ledger-service/application/workers/projection_worker.go:58-88 | for any projection version, any failures (an addition that takes effect and is reported as failed included) and restarts, and postings between any two additions of a batch, a balance row is the log's sum plus exactly what the worker added to it |
| `LedgerWorker.ConservationIffSeparateRow` | services/ledger-service/cmd/ledger-service/main.go:102 | the served balance equals the log's sum in every run if and only if the worker writes another projection version than 1 |
| `LedgerWorker.NonNegativeIffSeparateRow` | services/ledger-service/cmd/ledger-service/main.go:102 | no served balance is negative in any run if and only if the worker writes another projection version than 1 |
| `LedgerWorker.GuardFitsIffSeparateRow` | services/ledger-service/cmd/ledger-service/main.go:102 | no withdrawal guard leaves 64 bits in any run if and only if the worker writes another projection version than 1 |
| `LedgerWorker.EveryPostingDoubles` | services/ledger-service/application/workers/projection_worker.go:58-88 | from any reachable state in which a worker on the served row has caught up, every posting that commits counts once in the log and twice in the row |
| `LedgerWorker.TickIsSteps` | services/ledger-service/application/workers/projection_worker.go:58-88 | one undisturbed batch, failing or not, is a run of single additions |
| `LedgerWorker.AddedTimes` | services/ledger-service/application/workers/projection_worker.go:31-88 | in every run the worker has added each entry once for every time that it fell back behind it, by a failure or a restart, and once more if it is past it now |
| `LedgerWorker.SharedRowDoubles` | services/ledger-service/cmd/ledger-service/main.go:102 | the run of one deposit and one tick of a worker on the served row, after which the row is twice the log's sum |
| `LedgerWorker.SharedRowGoesNegative` | services/ledger-service/application/workers/projection_worker.go:58-88 | with the shared row, withdrawing the doubled deposit and one more tick leave a negative balance |
| `LedgerWorker.CaughtUpWorker` | services/ledger-service/application/workers/projection_worker.go:31-88 | after any failures, restarts and postings between its additions, a worker that has caught up counts every entry once on its row plus once for every time that it fell back behind it, and once more if that is the served row |
| `LedgerWorker.FellBackEvenly` | services/ledger-service/application/workers/projection_worker.go:31-88 | a caught-up worker that fell back behind every entry k times multiplies the log's sum by k + 1 on its own row and by k + 2 on the served row; with k zero its own row equals the served one |
| `LedgerWorker.RestartTriples` | services/ledger-service/application/workers/projection_worker.go:31-51 | the run deposit, tick, restart, tick on the served row, after which the row is three times the log's sum |
| `LedgerRuns.KeySumIsEntrySum` | services/ledger-service/infrastructure/postgres/idempotency_repo.go:17-32 | summing over recorded keys equals summing over entries: no key counts twice and no entry lacks a key |
| `LedgerService.Database.Handle` | services/ledger-service/application/commands/post_entry.go:41-143 | posting equals its specification under every fault, key lookup and wrapping guard included |
| `LedgerPosting.PostAnswers` | services/ledger-service/application/commands/post_entry.go:41-143 | every answer of a posting, for every database and command: which error, the recorded entry, or the new one |
| `LedgerPosting.PostCommitsIff` | services/ledger-service/application/commands/post_entry.go:64-143 | a valid command under a new key with new identifiers commits if and only if a deposit stays within 64 bits, or a withdrawal is covered |
| `LedgerPosting.PostWrites` | services/ledger-service/application/commands/post_entry.go:64-143 | what a committed posting writes, field by field: log row, served balance plus or minus the amount, key and message |
| `LedgerPosting.PostFaults` | services/ledger-service/application/commands/post_entry.go:56-143 | a failing call leaves the database as it was; a commit reported as failed leaves what a good one leaves |
| `LedgerService.Database.Write` | services/ledger-service/application/commands/post_entry.go:82-138 | log, balance row, key and message commit together or not at all |
| `LedgerService.Database.ApplyAll` | services/ledger-service/application/workers/projection_worker.go:64-85 | the loop adds deltas row by row and keeps what it added before a failure |
| `LedgerService.Database.ProcessNextBatch` | services/ledger-service/application/workers/projection_worker.go:58-88 | one batch as specified; on failure the cursor stays |
| `LedgerPosting.BatchAdds` | services/ledger-service/application/workers/projection_worker.go:64-85 | a batch goes through if and only if no call fails and every addition fits; each row then holds the signed sum of its account's entries more |
| `LedgerPosting.TickMeans` | services/ledger-service/application/workers/projection_worker.go:58-88 | one tick passes exactly its batch and adds its entries to the rows of the worker's version, if and only if no call fails and every addition fits 64 bits; else the cursor stays |
| `LedgerService.NewEntry` | services/ledger-service/domain/entry.go:40-61 | refuses an empty account and non-positive or foreign amounts, else raises exactly one event |
| `CausalRead.CausalRead` | services/ledger-service/infrastructure/postgres/balance_query.go:22-61 | a balance returned, under a required sequence number or none, is the fold of the log committed at the read (plus what the worker has replayed, if it shares the row), and that log holds every event up to that number that the run ever commits, although check and read see different states |
| `CausalRead.GetBalanceKobo` | services/ledger-service/infrastructure/postgres/balance_query.go:22-61 | the polling loop and the read after it, with timeouts, cancellation, failing queries and the missing row |
| `CausalRead.QueryAnswers` | services/ledger-service/infrastructure/postgres/balance_query.go:22-61 | the query succeeds if and only if the read does and, when a number is required, some poll sees it reached while all before saw it not reached; the value is the row's, or 0 |
| `ProjectionWorker.ProjectionConverges` | services/account-service/application/workers/projection_worker.go:29-111 | from any table, with any batch sizes, failures mid-batch, retries, restarts and a growing log: once the cursor is at the end, each stream beginning with an opening has the row of its replay |
| `ProjectionProgress.WorkerCatchesUp` | services/account-service/application/workers/projection_worker.go:29-111 | from any reachable state, once the batches of the next ticks have room for the rows not passed, and no opening is unreadable, each stream beginning with an opening has the row of its replay |
| `ProjectionWorker.PassAbsorbs` | services/account-service/application/workers/projection_worker.go:64-108 | applying part of a pass and then the whole pass equals applying the whole pass |
| `ProjectionWorker.ProjectStream` | services/account-service/application/workers/projection_worker.go:64-108 | projecting a whole valid stream onto any row gives the row of its replay |
| `ProjectionWorker.Worker.ProcessEvents` | services/account-service/application/workers/projection_worker.go:64-108 | the loop's table is the specified one up to the event that failed |
| `ProjectionProgress.ProjectMeans` | services/account-service/application/workers/projection_worker.go:64-108 | everything the worker does with one event: which event fails, which are skipped, and customer, status and version of the row written |
| `ProjectionWorker.Worker.Tick` | services/account-service/application/workers/projection_worker.go:29-52 | the cursor moves only past a batch that went through |
| `ProjectionProgress.TickAdvancesIff` | services/account-service/application/workers/projection_worker.go:29-111 | the cursor passes exactly the batch if and only if no call fails and no opening in it is unreadable, and else stays |
| `ProjectionProgress.RestartGoesBack` | services/account-service/application/workers/projection_worker.go:29-36 | a restart goes back to the beginning of the log and keeps the table |
| `LiveProjection.RowsArePrefixes` | services/account-service/application/workers/projection_worker.go:64-108 | in every interleaving of handler commits with the worker's separate get and upsert, each row is the replay of a non-empty prefix of its stream, and of the whole stream when the cursor is at the end with nothing in flight |
| `ProjectionProgress.LiveTickIsTick` | services/account-service/application/workers/projection_worker.go:52-111 | an undisturbed tick among the handlers' steps, with its separate reads and writes, is one tick of the worker alone |
| `OutboxRelay.PublishedInOrder` | pkg/outbox/relay/postgres/relay.go:67-112 | over every timely run (no message takes its place before a published one) with failures anywhere, the messages ever published are a prefix of the outbox order, the broker log with repeats dropped is that prefix, and the marked rows are a shorter prefix |
| `OutboxRelay.InOrderIffTimely` | pkg/outbox/relay/postgres/relay.go:67-73 | the order holds at every moment of a run if and only if no message takes its place before a published one |
| `OutboxRelay.LateMessage` | pkg/outbox/relay/postgres/relay.go:67-73 | the run of two messages, the second with the earlier place but committed after the first was published, in which the order fails |
| `OutboxRelay.Drain` | pkg/outbox/relay/relay.go:19-33 | from any table, t committing ticks with no new messages leave n - min(n, t x batch) of n waiting messages |
| `OutboxRelay.OrderedDrain` | pkg/outbox/relay/postgres/relay.go:31-48 | in a timely run those ticks mark the first min(n, t x batch) waiting messages and keep the order |
| `OutboxRelay.Relay.DoTick` | pkg/outbox/relay/postgres/relay.go:58-113 | one tick equals its specification: a failure rolls the marks back but not the publishes |
| `OutboxRelay.TickMeans` | pkg/outbox/relay/postgres/relay.go:58-113 | for every table: a tick publishes the waiting messages in order, up to its limit or its failure, and marks exactly those within the limit unless it fails |
| `OutboxRelay.EnqueueMeans` | pkg/outbox/postgres/store.go:28-33 | a message enters the table unpublished at its place if and only if its id is new |
| `OutboxRelay.Relay.PublishBatch` | pkg/outbox/relay/postgres/relay.go:98-110 | the loop publishes and marks in order, up to the message that fails |
| `OutboxRelay.SelectIff` | pkg/outbox/relay/postgres/relay.go:67-73 | a row is selected if and only if it is unpublished and fewer than the limit unpublished ones come before it |
| `OutboxRelay.Relay.Query` | pkg/outbox/relay/postgres/relay.go:67-92 | selects the first unpublished rows up to the limit |
| `RelayFleet.AtLeastOnce` | pkg/outbox/relay/postgres/relay.go:58-113 | with any number of relays, a message's publishes equal the aborted ticks that published it, plus one if marked, plus one if the one tick that holds it has published it; nothing is marked unpublished |
| `RelayFleet.MarkIsFinal` | pkg/outbox/relay/postgres/relay.go:98-112 | a marked message stays marked and is never published again, and no enqueued message leaves the table |
| `RelayFleet.InsertMeans` | pkg/outbox/postgres/store.go:28-33 | with several relays too, a message enters the table unpublished at its place if and only if its id is new |
| `RelayProgress.NothingIsLost` | pkg/outbox/relay/postgres/relay.go:58-113 | from any reachable state, in every run in which only one idle relay moves and its ticks may also fail: once its committed ticks together have room for the messages neither marked nor locked, every message that no relay held is marked |
| `RelayProgress.NothingIsLostInTraffic` | pkg/outbox/relay/postgres/relay.go:58-113 | the same while other relays start and commit ticks in between: every message is then marked or locked by another relay |
| `RelayProgress.NextBatchIff` | pkg/outbox/relay/postgres/relay.go:67-73 | in every reachable state an idle relay's next tick takes a message if and only if it is neither marked nor locked and fewer than a batch of such messages come before it |
| `RelayProgress.WholeTick` | pkg/outbox/relay/postgres/relay.go:58-113 | the steps of one undisturbed tick publish and mark exactly its batch and leave the locks as they were |
| `TokenBucket.AdmittedIff` | services/api-gateway/cmd/api-gateway/main.go:46-58 | for any clock and any rate, a call is admitted if and only if, counted from the bucket's creation and from every call so far, the admits since plus this one are at most burst + rate x elapsed |
| `TokenBucket.CreationBound` | services/api-gateway/cmd/api-gateway/main.go:36-44 | with a clock that does not run back, counting from the creation excludes nothing more than counting from the calls |
| `TokenBucket.NewBucketRuns` | services/api-gateway/cmd/api-gateway/main.go:36-44 | a new bucket, whatever was configured, and calls in order meet the conditions of the bounds that need a clock that does not run back |
| `TokenBucket.AdmittedWindow` | services/api-gateway/cmd/api-gateway/main.go:46-58 | for any clock, a stretch of calls that ends with an admitted one admits at most burst + rate x its length |
| `TokenBucket.WindowBound` | services/api-gateway/cmd/api-gateway/main.go:46-58 | with a clock that does not run back, any stretch of calls admits at most burst + rate x its length |
| `TokenBucket.RetryAfterOneSecond` | services/api-gateway/cmd/api-gateway/main.go:92-96 | at a rate of at least one per second, a call a second after the last one is admitted |
| `TokenBucket.Guard.constructor` | services/api-gateway/cmd/api-gateway/main.go:36-44 | a new bucket is full, with defaults 20 and 40 |
| `TokenBucket.NewBucketIs` | services/api-gateway/cmd/api-gateway/main.go:36-44 | a new bucket is full; settings that are not positive become 20 and 40 |
| `TokenBucket.Guard.TryTake` | services/api-gateway/cmd/api-gateway/main.go:46-58 | the in-place update equals the step function |
| `Gateway.DecisionsAreOwn` | services/api-gateway/cmd/api-gateway/main.go:72-113 | in any interleaving of requests, keys and limiters, a verdict is the one its own bucket gives when run alone on its own calls |
| `Gateway.PassesIff` | services/api-gateway/cmd/api-gateway/main.go:36-113 | whatever the clock does, a request passes if and only if, counted from its bucket's creation and from each of its slot's own calls, the requests passed since plus this one are at most burst + rate x elapsed, in the numbers configured for its path |
| `Gateway.LimitsOfPath` | services/api-gateway/cmd/api-gateway/main.go:101-113 | a request's new bucket is full, with the strict rate and burst if and only if some non-empty strict prefix matches its path, and 20 and 40 where a setting is not positive |
| `Gateway.StepsAreLimiters` | services/api-gateway/cmd/api-gateway/main.go:64-99 | seen from each limiter, the interleaved steps are lookups and calls with that limiter's own settings |
| `Gateway.RateLimiter.BucketFor` | services/api-gateway/cmd/api-gateway/main.go:72-81 | finds or makes the key's bucket, changes no other, and keeps buckets distinct |
| `Gateway.RateLimiter.TakeFrom` | services/api-gateway/cmd/api-gateway/main.go:46-58 | takes from the key's bucket and changes no other |
| `Gateway.RateLimiter.Limit` | services/api-gateway/cmd/api-gateway/main.go:83-99 | the verdict and the new buckets, for the key chosen from subject, address or the shared name |
| `Gateway.Choose` | services/api-gateway/cmd/api-gateway/main.go:101-113 | strict if and only if some non-empty prefix matches the path |
| `Gateway.LimiterFor` | services/api-gateway/cmd/api-gateway/main.go:101-113 | the strict limiter if and only if some non-empty prefix matches the path |
| `Gateway.Key` | services/api-gateway/cmd/api-gateway/main.go:85-91 | the key is trimmed and never empty: the subject if it is not blank, else the address if that is not, else the shared name |
| `LoginRuns.PruningRefines` | services/auth-service/infrastructure/grpc/login_limiter.go:35-99 | for every key whose clock does not run back, the pruned state answers every later question as the state that keeps every failure since the key's last success and sees no other key |
| `LoginRuns.VerdictRefines` | services/auth-service/infrastructure/grpc/login_limiter.go:46-67 | so verdict and reported lock are the unpruned limiter's |
| `LoginRuns.KeptExactly` | services/auth-service/infrastructure/grpc/login_limiter.go:35-99 | for any clock, a failure since the key's last success is kept if and only if it is later than the window before every pruning call since |
| `LoginRuns.GrantedExactly` | services/auth-service/infrastructure/grpc/login_limiter.go:46-67 | for any clock, a call is granted if and only if it finds no lock and fewer failures than the limit survive it; a refused one reports the lock it found or has just set |
| `LoginRuns.LockedExactly` | services/auth-service/infrastructure/grpc/login_limiter.go:35-99 | for any clock, a lock is set exactly by a pruning call that as many failures as the limit survive, lifted by a success, and else left alone |
| `LoginRuns.LockedOut` | services/auth-service/infrastructure/grpc/login_limiter.go:81-92 | any lock, set by a failure or renewed by a refused call, holds: every call before its end is refused unless the key succeeds in between, and no earlier lock is reported |
| `LoginRuns.FailuresLockOut` | services/auth-service/infrastructure/grpc/login_limiter.go:88-92 | a failure that fills the window locks until that failure plus the lockout |
| `LoginRuns.ReportedLockHolds` | services/auth-service/infrastructure/grpc/login_limiter.go:59-65 | so does every lock that a call has reported, one that it has just renewed included |
| `LoginRuns.LockEnds` | services/auth-service/infrastructure/grpc/login_limiter.go:46-67 | a call at or after the last failure plus window plus lockout is granted, although refused calls can renew the lock |
| `LoginRuns.RefusedCallRenewsLock` | services/auth-service/infrastructure/grpc/login_limiter.go:59-65 | for every lockout shorter than the window, a run in which a refused call renews the lock |
| `LoginRuns.ClockMustNotRunBack` | services/auth-service/infrastructure/grpc/login_limiter.go:50-57 | for every window, a run with a clock that runs back in which pruning changes the verdict |
| `LoginLimiter.Compact` | services/auth-service/infrastructure/grpc/login_limiter.go:50-57 | compacting in place over the array being read equals filtering it |
| `LoginLimiter.LoginState.Check` | services/auth-service/infrastructure/grpc/login_limiter.go:44-67 | the update of one key's state, verdict and reported lock |
| `LoginLimiter.LoginState.Record` | services/auth-service/infrastructure/grpc/login_limiter.go:79-92 | the update of one key's state on a failure |
| `LoginLimiter.Limiter.Allows` | services/auth-service/infrastructure/grpc/login_limiter.go:35-68 | answers for the key and changes no other key |
| `LoginLimiter.Limiter.Fail` | services/auth-service/infrastructure/grpc/login_limiter.go:70-93 | records for the key and changes no other key |
| `LoginLimiter.Limiter.Succeed` | services/auth-service/infrastructure/grpc/login_limiter.go:95-99 | forgets exactly that key |
| `LoginLimiter.NewConfig` | services/auth-service/infrastructure/grpc/login_limiter.go:22-33 | attempts and window are positive; given positive values are kept, and the defaults are 5 attempts, five minutes and no lockout |
| `AuditChain.ValidatesIffUndisturbed` | services/audit-service/infrastructure/postgres/audit_repository.go:28-53 | after any run of interleaved saves the log validates if and only if no insert falls between a save's fetch and its insert, and a fetch fails only for the first row |
| `AuditChain.InsertWrites` | services/audit-service/infrastructure/postgres/audit_repository.go:28-53 | over every run, an insert adds one row with its own id, the entry its save was called with, the hash its fetch saw and the hash of both; no other step changes the log |
| `AuditChain.OverlapForks` | services/audit-service/infrastructure/postgres/audit_repository.go:28-53 | two overlapping saves, of any entries and under any hash, leave two rows of which the second does not link |
| `AuditChain.HashesDistinct` | services/audit-service/infrastructure/postgres/audit_repository.go:55-65 | the hashes of a validating log are pairwise distinct and not empty |
| `AuditChain.LastHashBindsText` | services/audit-service/infrastructure/postgres/audit_repository.go:100-112 | two validating logs have equal last hash if and only if they have equal length and row by row the same joined text |
| `AuditChain.LastHashBindsFields` | services/audit-service/infrastructure/postgres/audit_repository.go:55-65 | if the first four fields hold no bar, that is: if and only if user, action, resource type, resource id and payload text agree row by row, bars in the payload or not |
| `AuditChain.BarsMoveBetweenFields` | services/audit-service/infrastructure/postgres/audit_repository.go:60-61 | for every hash, two different one-row logs with bars in their fields share their last hash |
| `AuditChain.UncoveredFields` | services/audit-service/infrastructure/postgres/audit_repository.go:55-65 | changing correlation id, trace id or service name in any row changes neither validity nor last hash |
| `AuditChain.ValidateIntegrity` | services/audit-service/infrastructure/postgres/audit_repository.go:67-116 | valid if and only if the query succeeds and every delivered row links and scans; else the count before, and the id of, the first bad row |
| `AuditChain.ShortReadIsShortLog` | services/audit-service/infrastructure/postgres/audit_repository.go:82-115 | whatever follows the delivered rows, the report is the one for a log that ends with them |
| `AuditChain.ShortReadHidesRows` | services/audit-service/infrastructure/postgres/audit_repository.go:82-115 | any validating log followed by any row that does not link, and by anything else, is reported valid by a read that ends before that row, and as bad at that row by every read that reaches it |
| `AuditChain.Repository.Save` | services/audit-service/infrastructure/postgres/audit_repository.go:28-53 | an undisturbed save adds the row of its own entry, the last hash (empty if the fetch failed) and the hash of both, or nothing if the insert fails |
| `Argon2id.ParseFormat` | pkg/security/password_argon2id.go:67-104 | for all uint32 time and memory, uint8 threads, any salt and any hash, parsing the printed string returns them exactly, and an empty hash is refused |
| `Argon2id.ParsesIff` | pkg/security/password_argon2id.go:61-104 | exactly which strings parse, and to what: six parts between dollar signs with algorithm, version 19, parameters and two base 64 texts, the hash not empty |
| `Argon2id.VerifyStored` | pkg/security/password_argon2id.go:22-59 | verifying any non-blank password against a stored hash is true exactly if it derives the stored password's key |
| `Argon2id.VerifiesIff` | pkg/security/password_argon2id.go:41-59 | for every input, true if and only if the password is not blank and the string parses to parameters, salt and hash whose key it derives |
| `Argon2id.HashesIff` | pkg/security/password_argon2id.go:22-39 | hashing fails if and only if the password is blank or the salt cannot be read; else the string with its parameters, salt and key of 32 bytes |
| `Argon2id.VerifyOwnPassword` | pkg/security/password_argon2id.go:41-59 | a stored password verifies, for every non-blank password and every salt |
| `Base64.Base64RoundTrip` | pkg/security/password_argon2id.go:34-35 | unpadded base 64 (sections 3.2 and 4 of RFC 4648) decodes what it encodes, and its text holds no dollar sign |
| `Base64.SameBits` | pkg/security/password_argon2id.go:34-35 | three bytes and their four sextets are the same 24 bits (section 4 of RFC 4648) |
| `Decimal.ScanPrinted` | pkg/security/password_argon2id.go:77-89 | a printed number is scanned back, whatever follows it but a digit |
| `HeaderList.HeaderIdentityIff` | services/api-gateway/cmd/api-gateway/main.go:181-186 | a list arrives unchanged if and only if its elements are comma-free, trimmed and not empty |
| `HeaderList.HeaderRoundTrip` | pkg/security/middleware/grpc.go:118-136 | comma-free lists arrive as their trimmed non-empty elements in order |
| `HeaderList.HeaderCarries` | pkg/security/middleware/grpc.go:118-136 | every list arrives as its elements split at their own commas, trimmed, blanks dropped |
| `HeaderList.SplitCSV` | pkg/security/middleware/grpc.go:118-136 | the loop returns the trimmed non-empty parts, and the outer trim changes nothing |
| `Text.TrimSpaceCuts` | pkg/security/middleware/grpc.go:118-136 | trimming cuts off the spaces at both ends, all of them, and nothing else |
| `Payment.Histories` | services/payment-service/domain/payment.go:96-161 | over every run of commands and pulls, pulled plus pending events are Initiated Failed*, Initiated Authorized Failed* or Initiated Authorized Settled, the version is their number, and applying them to a blank payment rebuilds every field |
| `Payment.EveryShapeOccurs` | services/payment-service/domain/payment.go:96-122 | and every history of such a shape that begins with an opening `NewPayment` raises is the history of some run |
| `Payment.NewPayment` | services/payment-service/domain/payment.go:74-90 | refuses as its guards say, in their order, else starts at version 1 with one pending event |
| `Payment.CommandMeans` | services/payment-service/domain/payment.go:96-122 | what every command answers and does in every status, the event and its reason included |
| `Payment.RefusedIff` | services/payment-service/domain/payment.go:74-90 | refused if and only if a side is blank, both are the same account, the currency is another or the amount is not positive |
| `Payment.Aggregate.Apply` | services/payment-service/domain/payment.go:124-150 | the update by one event; an unknown event changes nothing |
| `Payment.Aggregate.Authorize` | services/payment-service/domain/payment.go:96-102 | only from initiated; state, pending events and refusal as specified |
| `Payment.Aggregate.Settle` | services/payment-service/domain/payment.go:104-110 | only from authorized |
| `Payment.Aggregate.Fail` | services/payment-service/domain/payment.go:112-122 | from any status but settled, with the trimmed reason or the default one |
| `Payment.Aggregate.PullChanges` | services/payment-service/domain/payment.go:152-156 | hands over the pending events and keeps the state |

## Left out

- gRPC, HTTP, JWT, WebAuthn, TLS and SPIFFE, Kafka and NATS, configuration and `main` wiring: plumbing around the modelled code.
- Admin, FX, fraud and reporting code, audit `List` and `Get`, `GetPending` and `MarkProcessed` of the outbox store: single queries or mocks with easy properties.
- Entry types other than deposit and withdrawal: the ledger refuses them; here the type is an enumeration.
- The ledger's snapshot branch: an entry's version is always 1, so its snapshot is never due.
- Serialization of transactions and the isolation level of the database: steps are serial, as a strongly consistent store promises.
- Widths of versions, sequence numbers and times: they are unbounded here; amounts, balances and the audit counter are not.
- Float rounding of the token bucket, and real timers in the polling loops: reals and nondeterministic ticks instead.
- SHA-256, Argon2id and UUID internals: functions and values that are parameters; the panic of the Argon2 library on zero rounds or threads is not modelled.
- Bytes: strings are sequences of characters, so invalid UTF-8 is not modelled; the JSON text of an audit payload is taken to survive `jsonb` unchanged.
- AccountDomain.StoredHistoryReplays: stored JSON is modelled by the fields it carries, or as text that does not parse, not as characters.
- TokenBucket.WindowBound: for clocks that do not run back, which `time.Now().UTC()` does not promise, since it drops the monotonic reading; `AdmittedIff`, `PassesIff` and `AdmittedWindow` hold for any clock.
- LoginLimiter.Compact: the backing array lives for one call; that a later `append` may reuse spare capacity is not modelled, since no other slice shares the array.
- OutboxRelay.Drain: counts committing ticks; how often a tick fails is up to the environment.
- OutboxRelay.PublishedInOrder: rows with equal `created_at`, whose order the query leaves open, are taken to be read in one fixed order.
- RelayProgress.NothingIsLostInTraffic: nothing is inserted and no other relay aborts meanwhile; what is inserted or given back waits for later ticks.
