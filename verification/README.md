# Money movement, modelled and proved

A Dafny 4.11 model of the bank's money-movement protocol: the double-entry ledger and the services that post to it, the
withdrawal saga and its recovery worker, the outbox relay, the retrying Kafka consumers, the `transaction_activity` read
model, the circuit breaker in Redis, and the idempotency cache. `dafny verify dfyconfig.toml` checks all of it.

## How it is built

Each committed transaction, Redis command, Kafka send, rail call, clock tick and crash is one atomic step. The system
appears in two forms.

* The code that updates things in place is a class whose methods have the source's branches and loops. Each method is
  proved to leave the state that a specification function gives.
* The concurrent behaviour is a state machine over the same functions. Its theorems quantify over every sequence of
  actions, where an impossible action changes nothing.

Where a part has both forms, the method's specification is proved to be what a run of the machine leaves when nobody else
moves: `ServicesAreRuns` and `WithdrawRun` (transfer, seed, deposit, reservation), `ReserveIsInitial` and `DriveIsARun`
(the live withdrawal), `PassIsARun` (recovery), `CallIsARun` (breaker), `RoundIsARun` and `RelayLoop` (relay). The
consumer's methods and machines share one reaction function.

| files | part |
|---|---|
| `Ledger`, `Events`, `Postings`, `PostingInvariants` | legs, balances, event contracts, the effect of each commit and what it keeps |
| `PostingProtocol`, `PostingTheorems`, `RecordsTold` | any number of transactions under READ COMMITTED, interleaved at every lock, unique key, read and commit |
| `TransferService`, `PaymentServices`, `ServicesInProtocol`, `ServicesInSaga` | the service methods, the Redis cache, and their place in protocol and saga |
| `WithdrawalSaga`, `WithdrawalSagaTheorems`, `SagaColumns` | one withdrawal: its handler, any number of recovery workers, lock, rail and clock |
| `SagaRecovery`, `SagaRecoveryTheorems`, `RecoveryPasses` | the recovery worker over the whole table, and its draining |
| `CircuitBreaker` | the breaker's keys, scripts and callers |
| `Outbox`, `OutboxRows`, `RelayAccounts`, `RelayRuns`, `OutboxRelay` | many relays that crash; one relay that does not |
| `ConsumerRetry`, `RetryFanout`, `RetryOffsets` | one delivery, the fan-out over groups, offsets under crashes |
| `ActivityReadModel`, `Backfill`, `BackfillTheorems`, `Pipeline` | the read model, its backfill, and everything end to end |

Amounts are whole ticks of 0.0001. Accounts are ordered as their UUID strings are, with the system account first.
Fresh UUIDs are drawn from a counter; SHA-256 and UUID5 are injective. Seed keys are taken never to start
with `reversal:`, and transfer keys never with `withdrawal:`.

## What the code turns out not to promise

* The handler's `_complete`, `_compensate` and mark do not re-check the status. Without the assumption that a live handler
  acts within five minutes of the row's last update, a withdrawal can be paid twice by the rail, end completed and
  reversed, or stay submitted for ever beside its reversal (`StalledHandlerPaysTwice`, `StalledHandlerPays`,
  `StuckSubmittedForever`). Agreement holds exactly when no such write lands on an ended row (`AgreementExactly`).
* The handler's compensation writes the reversal and the row in one flush, in an order the source leaves open; recovery
  locks the row first. In opposite orders the two can deadlock, and nothing else can (`DeadlockExactly`).
* A rail success whose process dies before recording it is refunded after thirty minutes (`LostSuccess`).
* The pre-flight check of the breaker can pass while an uncontended call is refused (`PreflightIsNotAdmission`).
* The breaker checks the cooldown and claims the probe in two Redis commands, so a caller can be let through right after
  the failure of somebody else's probe (`EarlyAdmission`); `AdmittedAfterCooldown` says exactly when.
* The relay's first idle pause is two seconds; its comment says one (`QuietPauses`).
* A cached transfer key answers a request that is invalid on its own (a missing account, equal accounts, no positive
  amount) with a conflict where the database would name the real error; the ledger is the same either way
  (`MaskedCallHappens`, `CacheRefinesDatabase`). The transfer router and its schema screen out these requests before they reach
  the service (app/routers/transfers.py:34-53, app/schemas/transfer.py:10-16).
* `auto_offset_reset="latest"` can pass over a message that no one handled (`SkippedByLatest`); `SkippedExactly` says which.
* Backfilling beside live events doubles the read model (`BackfillBesideLiveEventsDoubles`), and the backfill guard
  recognises an earlier run only if there was a user account (`BackfillTwice`).
* `workers/saga_recovery.py` says that no row lock is held during rail calls; `_resolve_one` holds it, and the model does too.

## Model

| member | source | states |
|---|---|---|
| Ledger.PostingMovesMoney | app/services/account_service.py:65-80 | Appending one debit/credit pair changes `get_balance` of the debited account by minus the amount, of the credited account by plus the amount, of no other account, and leaves every transaction group and the whole ledger summing to what they summed to |
| PostingInvariants.TransferGood | app/services/transfer_service.py:65-161 | A transfer's commit, completed or failed, keeps every table invariant: double entry, one pair per record, unique keys, and outbox rows whose activity rows are the transaction's legs |
| PostingInvariants.ReserveGood | app/services/withdrawal_service.py:276-314 | The reservation of a withdrawal keeps every table invariant |
| PostingInvariants.ReverseGood | workers/saga_recovery.py:180-225 | A reversal whose key is free keeps every table invariant: the withdrawal's second pair mirrors its first |
| PostingInvariants.DepositGood | app/services/deposit_service.py:164-226 | A deposit's commit, completed or rejected, keeps every table invariant |
| PostingInvariants.SeedGood | app/services/account_service.py:141-181 | A seed under a free key keeps every table invariant |
| PostingProtocol.CommitGood | app/services/transfer_service.py:161-163 | Whatever ran in between, the commit of any process keeps every table invariant |
| PostingProtocol.DebitCovered | app/services/transfer_service.py:54-67 | At the commit that debits an account, the balance is still at least the amount, because the balance was read under a row lock that no other debit can share |
| PostingProtocol.StepKeeps | app/services/transfer_service.py:52-163 | One database operation of any process among any number keeps the global invariant: locks exclusive, what each process knows still true, ledger balanced, records posted once, nobody overdrawn |
| PostingTheorems.ConservationAndSolvency | app/services/transfer_service.py:54-161 | In every state of every interleaving of transfers, withdrawals, deposits, seeds, reversals and crashes: each transaction group is one debit and one credit of one amount, every group and the ledger sum to zero, and every non-system balance is at least zero |
| PostingTheorems.TransferPaidOnce | app/services/transfer_service.py:163-188 | A transfer key owns exactly one posting pair if completed and no leg if failed, under any concurrency and any cache loss |
| PostingTheorems.DepositPaidOnce | app/services/deposit_service.py:116-227 | A deposit reference owns exactly one pair if completed and none if rejected; no committed deposit is pending |
| PostingTheorems.WithdrawalPaidOnce | app/services/withdrawal_service.py:267-314 | A withdrawal key owns exactly one reservation pair, and at most one reversal pair whoever raced to write it |
| PostingTheorems.SeedPaidOnce | app/services/account_service.py:180-192 | A seed key is on at most one leg, and that leg closes exactly one pair |
| PostingTheorems.NoStrayLegs | app/models/ledger_entry.py:9-21 | Every leg in the ledger belongs to a committed record, or to a seed whose credit leg carries a seed key |
| PostingTheorems.HistoryOnlyGrows | app/services/withdrawal_service.py:399-400 | Along a run committed legs, transfers, deposits, the terms of withdrawals and outbox events are never changed or withdrawn |
| RecordsTold.RecordsAreTold | app/events/publisher.py:30-61 | Along every run each new outbox row tells what is committed, with the record's own id, accounts and amount, and no two tell the same (but for equal seeds and completions of one withdrawal); and every new account, transfer, deposit, reservation, reversal and seed has its event, failed transfers and rejected deposits included |
| PostingTheorems.NoDeadlock | app/services/transfer_service.py:53-63 | No reachable state has a cycle of processes each waiting for a row lock or key the next holds, as long as no two compensations of one withdrawal take its row and its reversal key in opposite orders: the rest is asked for in one total order |
| PostingTheorems.DeadlockExactly | workers/saga_recovery.py:101-105 | From any good start a run to a cycle of waiters exists if and only if two of the transactions are such opposed compensations of a withdrawal whose reversal key is free (recovery takes the row first; the handler's one flush writes both in either order) |
| PostingTheorems.SomeoneCanStep | app/services/withdrawal_service.py:244-270 | While any transaction is unfinished, some transaction can take its next step, under the same proviso |
| PostingTheorems.EveryScheduleEnds | app/services/deposit_service.py:155-157 | Every schedule of finitely many transactions ends: its length is at most the number of operations in their programs |
| TransferService.Service.Insert | app/services/transfer_service.py:107-166 | The flush of a transfer: CHECK violations before the unique key, all or nothing |
| TransferService.Service.Transfer | app/services/transfer_service.py:32-202 | The method with its ordered lock loop, IntegrityError path and cache write leaves the database and the cache, and gives the reply, of the specification |
| TransferService.KeyIsForever | app/services/transfer_service.py:163-188 | After an answer that used up its key, the same request gets the same response (or KeyConsumed after a failure), any other valid request gets a conflict, and nothing more is posted, at any later database, however low the balance has become |
| TransferService.FirstUse | app/services/transfer_service.py:65-161 | A first use succeeds exactly when the balance covers it, and then moves exactly the amount between the two accounts and touches no other; record, reply and event name the request's source, target and amount under the new id, a refused one leaves a failed record and its event |
| TransferService.Refused | app/services/transfer_service.py:53-63 | Missing accounts and violated constraints are named in that order, exactly when they hold, before the key counts; every refusal but for the balance leaves the tables as they were; no call overdraws anyone |
| TransferService.OkNamesTheRow | app/services/transfer_service.py:163-202 | An Ok reply, from a first use, a replay or Redis, has the request's source, target and amount, status completed, and the id of the row stored under the key |
| TransferService.CachedCall | app/services/transfer_service.py:41-48 | A whole call through Redis leaves the same database as one without, keeps every entry equal to a committed completed row, and replies alike exactly when it does not hit a cached key with a request the database would reject |
| TransferService.CacheRefinesDatabase | app/services/transfer_service.py:190-202 | Over any history in which calls, their delayed cache writes, writes that never arrive, lost entries and other commits interleave: same ledger, same records, same outbox as the cache-free service; every entry, cached or on its way, matches a committed completed row; the replies are equal if and only if no hit answered a request that the database would reject |
| TransferService.MaskedCall | app/services/transfer_service.py:44-48 | Any such hit is answered as a conflict, where the database names the missing account or the violated constraint |
| TransferService.MaskedCallHappens | app/services/transfer_service.py:44-48 | Such a hit is reachable: after a seed and a transfer, the transfer's key with amount 0 |
| PaymentServices.Services.SimulateDeposit | app/services/deposit_service.py:112-227 | The deposit method against its specification: duplicate reference answered with the existing row, rejection branches, one pair when accepted |
| PaymentServices.Services.SeedAccount | app/services/account_service.py:133-200 | The seed method against its specification: a taken key is answered with the balance or a conflict, whatever constraint the flush violated; a violation under a free key is raised |
| PaymentServices.Services.CreateWithdrawal | app/services/withdrawal_service.py:232-351 | The whole live path of a withdrawal (cache, checks, reservation, mark, rail, completion or compensation) against its specification |
| PaymentServices.Services.Reserve | app/services/withdrawal_service.py:276-326 | TX 1 and the cache write: the pending response is what is cached |
| PaymentServices.Services.Drive | app/services/withdrawal_service.py:328-351 | TX 2, the rail call, and TX 3a or 3b, from any reserved state |
| PaymentServices.Services.Complete | app/services/withdrawal_service.py:353-384 | TX 3a: columns written, one event, no leg |
| PaymentServices.Services.Compensate | app/services/withdrawal_service.py:386-447 | TX 3b: the reversal pair under its key, the failed row, one event |
| PaymentServices.DepositOnce | app/services/deposit_service.py:137-141 | A reference is decided once: any later call with it, whatever it names, changes nothing and gets the first row, or an error if its amount is not positive; money moved exactly when the first call's account was an active user account and the currency supported |
| PaymentServices.SeedOnce | app/services/account_service.py:182-199 | A seed key credits once: every later call with it, for any account and amount, moves nothing, and its answer is determined (balance of the day for the same request, conflict for any other, missing account) |
| PaymentServices.CreditFirstUse | app/services/deposit_service.py:164-226 | Under a new key: a deposit is refused only for an amount that no row may have, a seed only for a missing account or such an amount, and a refusal changes nothing; otherwise the row is the request's and one event tells whether it was accepted |
| PaymentServices.WithdrawalRefused | app/services/withdrawal_service.py:241-274 | Under a key that neither Redis nor the table knows a withdrawal goes through if and only if the account is an existing user account and 0 < amount <= balance; otherwise nothing changes and the error is the first failing check's |
| PaymentServices.WithdrawalSolvent | app/services/withdrawal_service.py:249-251 | No withdrawal call, whatever its key and request, overdraws a user account |
| PaymentServices.HistorySolvent | app/services/withdrawal_service.py:249-251 | Nor does any history of calls and lost cache entries |
| PaymentServices.CreditsSolvent | app/services/account_service.py:133-200 | Nor does a deposit or a seed |
| PaymentServices.WithdrawalMovesMoney | app/services/withdrawal_service.py:253-351 | A new withdrawal lowers its account by the amount if the rail accepted and by nothing if it refused, and moves no other user account; the record is the request's under the new id, the row has the rail's reference or code and the three times, and two events tell it |
| PaymentServices.WithdrawalOnce | app/services/withdrawal_service.py:267-274 | Once the key is in the table no history of calls, with this key or others, cached or not, changes its record, its row or its legs |
| PaymentServices.WithdrawalReplay | app/services/withdrawal_service.py:232-274 | After a first use and any history the key moves nothing more: while cached, the same request gets the reservation's response and any other a conflict; once the entry is lost, any request within its account's balance gets the row as the first call left it |
| ServicesInProtocol.ServicesAreRuns | app/services/transfer_service.py:52-161 | Transfer, seed and deposit called alone are runs of the concurrent protocol ending in the database the service leaves, so the theorems on runs are about the services |
| ServicesInProtocol.WithdrawRun | app/services/withdrawal_service.py:241-314 | The same for the reservation of a withdrawal, including every refusal |
| ServicesInSaga.ReserveIsInitial | app/services/withdrawal_service.py:276-314 | The reservation under a new id is the first state of the saga machine |
| ServicesInSaga.DriveIsARun | app/services/withdrawal_service.py:328-351 | TX 2, the rail call and TX 3 of the service are a run of the machine's handler to the same row, legs and events |
| WithdrawalSaga.ShapeNet | app/services/withdrawal_service.py:276-298 | A withdrawal's legs take its amount from the user once, or, with the reversal pair, not at all |
| WithdrawalSaga.CompensateShape | alembic/versions/0001_initial_schema.py:53-53 | Compensation goes through exactly when no reversal exists, and then leaves exactly one |
| WithdrawalSagaTheorems.ReversalSafety | workers/saga_recovery.py:187-215 | With no timing assumption, for every interleaving of the handler, any number of workers, deaths and stalls: at most one reversal, a failed row has one, and the user is down by the amount or by nothing |
| WithdrawalSagaTheorems.StepCore | app/services/withdrawal_service.py:360-431 | From an agreeing state one step keeps row, ledger and events in agreement if and only if it is not a handler UPDATE over a row that recovery has ended |
| WithdrawalSagaTheorems.AgreementExactly | app/services/withdrawal_service.py:328-351 | With no timing assumption: row, ledger and events agree throughout a run if and only if no handler UPDATE in it lands on a terminal row |
| WithdrawalSagaTheorems.SagaAgreement | workers/saga_recovery.py:99-245 | While no handler commit is stale, in every committed state: one debit pair and no reversal while pending, submitted or completed, one of each when failed; external reference exactly when completed; failure code exactly when failed; one event per stage |
| WithdrawalSagaTheorems.PromptIsNeverStale | app/models/withdrawal.py:56-60 | Handlers that act within five minutes of the row's last update never commit stale; and while such a handler lives the row is not terminal, nobody holds its lock and no worker has so much as claimed it |
| WithdrawalSagaTheorems.WorkersExclude | workers/saga_recovery.py:99-105 | Two workers are never inside their transactions together, in any run, prompt or not |
| SagaColumns.ColumnsWereHeard | workers/saga_recovery.py:139-148 | In every run the row's reference was given by an accepted send of that run, and its rail code by a refused send or a query |
| SagaColumns.ChangesAreStamped | app/models/withdrawal.py:56-60 | Every step that changes the row sets updated_at to its time; a mark keeps everything else, and an ended row is dated by the commit that ended it |
| WithdrawalSagaTheorems.RailAgreement | workers/saga_recovery.py:131-148 | While no handler commit is stale, when no live process holds an unrecorded success: the rail accepted exactly once if completed and never otherwise, if and only if no success died with its process; then compensation for an open circuit follows no accepted send |
| WithdrawalSagaTheorems.TerminalExactly | app/services/withdrawal_service.py:360-363 | From an agreeing completed or failed record on, row, legs and events never change if and only if no handler commit is stale |
| WithdrawalSagaTheorems.TerminalForever | workers/saga_recovery.py:107-113 | After a prompt run has ended the withdrawal, no continuation, prompt or not, changes its row, legs or events |
| WithdrawalSagaTheorems.StalledHandlerPays | app/services/withdrawal_service.py:360-363 | Where the timing assumption bites: a run in which a stalled handler wakes after recovery compensated, and the withdrawal ends completed and reversed with the rail paid |
| WithdrawalSagaTheorems.StalledHandlerStrands | app/services/withdrawal_service.py:328-330 | The same with a refusing rail: the row is left submitted beside its reversal |
| WithdrawalSagaTheorems.StalledHandlerPaysTwice | app/services/withdrawal_service.py:328-351 | The worst such run: the handler stalls while a worker sends and completes the withdrawal, then sends it again; the rail pays twice for one debit and no success was lost |
| WithdrawalSagaTheorems.StuckSubmittedForever | workers/saga_recovery.py:175-177 | From such a state no further step ever ends the row: each compensation meets the reversal key and rolls back |
| WithdrawalSagaTheorems.LostSuccess | workers/saga_recovery.py:158-162 | A prompt run in which the process dies with the rail's acceptance in hand and the 30-minute rule refunds the user: the proviso of RailAgreement is needed |
| SagaRecovery.RecoveryWorker.Compensate | workers/saga_recovery.py:180-225 | In-place compensation: new ledger, row and outbox |
| SagaRecovery.RecoveryWorker.Complete | workers/saga_recovery.py:228-245 | In-place completion, filling a missing `submitted_at` |
| SagaRecovery.RecoveryWorker.RecoverPending | workers/saga_recovery.py:115-148 | Before commit the transaction holds the specified result, or breaks the unique reversal key exactly when the specification rolls back |
| SagaRecovery.RecoveryWorker.RecoverSubmitted | workers/saga_recovery.py:151-177 | The same for a submitted row, with and without an external reference, for every answer of the rail |
| SagaRecovery.RecoveryWorker.ResolveOne | workers/saga_recovery.py:87-112 | One transaction: commits the specified result or leaves the tables as they were |
| SagaRecovery.RecoveryWorker.RecoverStuckWithdrawals | workers/saga_recovery.py:51-84 | One pass claims a duplicate-free batch of stuck rows of size min(20, stuck), any such batch, and resolves them one by one; one failing resolution does not stop the rest |
| SagaRecoveryTheorems.ResolveProjects | workers/saga_recovery.py:99-245 | What a resolution does to the tables is, for its withdrawal, exactly what the saga machine's commit does to the record |
| SagaRecoveryTheorems.ResolveLeavesOthers | workers/saga_recovery.py:99-104 | Row, legs and events of every other withdrawal are untouched |
| SagaRecoveryTheorems.ResolveIsARun | workers/saga_recovery.py:115-177 | From a claimed row with a free lock the machine has a run of the worker ending in exactly that record, so the saga theorems cover the worker's code |
| RecoveryPasses.ResolutionWrites | workers/saga_recovery.py:115-245 | With a free reversal key, every resolution's row column by column (all answers of breaker and rail, thirty minutes as a number), the reversal pair exactly with a failed row, one event exactly with a change |
| RecoveryPasses.TimedOutExactly | workers/saga_recovery.py:163-177 | A submitted row without a reference is left alone if and only if it is at most thirty minutes old when looked at |
| RecoveryPasses.YoungAreLeftAlone | workers/saga_recovery.py:64-77 | A pass leaves row, legs and events of every withdrawal changed within the last five minutes, and of every ended one, whatever else is in its batch |
| RecoveryPasses.ClaimedExactly | workers/saga_recovery.py:70-76 | The query finds a withdrawal exactly when the machine's claim is enabled on its record: pending or submitted, last changed more than five minutes ago |
| RecoveryPasses.PassIsARun | workers/saga_recovery.py:64-112 | A whole pass, for each withdrawal in its batch, is a run of the machine's worker from the claim to the record the pass leaves |
| SagaRecoveryTheorems.AgreementDrains | workers/saga_recovery.py:163-177 | A table left by the saga in agreement needs only to be older than the hard timeout to be drainable |
| SagaRecoveryTheorems.PassDrains | workers/saga_recovery.py:64-84 | One pass ends exactly min(20, open) withdrawals, whichever batch the query picks and whatever breaker and rail answer |
| SagaRecoveryTheorems.RecoveryDrains | workers/saga_recovery.py:46-48 | After r passes over n old open withdrawals exactly max(0, n - 20r) are left: n of them take exactly ⌈n/20⌉ passes |
| SagaRecoveryTheorems.RecoveryLoop | app/main.py:55-66 | The background loop with enough rounds leaves every withdrawal completed or failed |
| CircuitBreaker.Breaker.OnFailure | app/circuit_breaker.py:50-72 | The failure script against its specification |
| CircuitBreaker.Breaker.OnSuccess | app/circuit_breaker.py:77-83 | The success script against its specification |
| CircuitBreaker.Breaker.Claim | app/circuit_breaker.py:89-106 | The probe claim against its specification |
| CircuitBreaker.Breaker.IsCallAllowed | app/circuit_breaker.py:122-142 | The pre-flight check against its specification |
| CircuitBreaker.Breaker.Call | app/circuit_breaker.py:144-183 | `call` without interference: admission by the gate, the lease possibly expiring while the rail answers, success and RailError reported, any other exception unreported |
| CircuitBreaker.CallIsARun | app/circuit_breaker.py:144-183 | Such a call leaves the keys that the machine leaves when the caller takes its steps one Redis command at a time and nobody else moves |
| CircuitBreaker.PreflightExact | app/circuit_breaker.py:122-175 | An uncontended call is admitted if and only if the pre-flight check passes and the circuit is not open under a lease |
| CircuitBreaker.CallAnswers | app/circuit_breaker.py:153-183 | An uninterrupted call is refused under that condition and otherwise returns or raises what the rail answered |
| CircuitBreaker.OpenRefuses | app/circuit_breaker.py:133-166 | From every reachable open state, check and call refuse at every time less than the cooldown after the last recorded failure, and the refused call leaves the keys as they were |
| CircuitBreaker.AdmittedAfterCooldown | app/circuit_breaker.py:155-175 | In every run, a caller let through while the circuit is open comes at least the cooldown after the last recorded failure, if and only if no younger failure was recorded after it had looked at the circuit |
| CircuitBreaker.EarlyAdmission | app/circuit_breaker.py:155-164 | That exception happens: two callers pass the cooldown check, the first one's probe fails, and the second claims the circuit at the very time of that failure |
| CircuitBreaker.LeaseLasts | app/circuit_breaker.py:110-113 | A caller let through an open or half-open circuit keeps all others out for exactly sixty seconds, unless a report comes first |
| CircuitBreaker.ProbeEnds | app/circuit_breaker.py:50-83 | A failed probe leaves the circuit open with a count of one and no lease, a success leaves it closed with nothing else |
| CircuitBreaker.PreflightIsNotAdmission | app/circuit_breaker.py:167-175 | A reachable state, left by the non-atomic claim, where the check passes and an uncontended call is refused |
| CircuitBreaker.TripRefinement | app/circuit_breaker.py:50-83 | Over every interleaving of callers: the circuit is closed if and only if fewer than threshold failures trail the report history, then the counter is their number; `last_failure_at` is the last report's time if that was a failure and absent otherwise |
| CircuitBreaker.WhenTheCircuitMoves | app/circuit_breaker.py:62-72 | The circuit leaves closed exactly at the threshold-th failure in a row and returns exactly on a recorded success |
| CircuitBreaker.OneProbePerLease | app/circuit_breaker.py:99-113 | Between any two admissions through the open or half-open branch the lease was cleared |
| CircuitBreaker.SelfHeals | app/circuit_breaker.py:110-113 | From every reachable state, after max(cooldown, 60 s) without a write the next call is admitted, a stray lease included |
| Outbox.StepKeeps | workers/outbox_relay.py:55-184 | Claims, sends, stale column-wise merges, aborted merges, crashes, resets and cleanups of any number of relays keep: no row or copy exaggerates, and every committed id is kept |
| Outbox.OutboxLosesNothing | workers/outbox_relay.py:66-137 | Every row ever committed is pending, or publishing and made pending by the reset once older than five minutes, or was delivered, or was given up after at least ten failed sends |
| Outbox.OutboxIsHonest | workers/outbox_relay.py:228-247 | Published implies delivered, failed implies at least ten failures, no retry count exceeds the real failures, and Kafka carries committed rows only |
| Outbox.CopiesAreHonest | workers/outbox_relay.py:90-106 | The same of every detached copy in any relay, however stale |
| OutboxRows.RowChanges | workers/outbox_relay.py:72-137 | In every run a row changes only when claimed while pending, when the reset finds it publishing and older than five minutes, or when a relay merges its copy; the merge writes the columns that the relay changed and keeps the others as they are by then |
| OutboxRows.RowsComeAndGo | workers/outbox_relay.py:145-183 | A row leaves the table exactly when the cleanup finds it published more than 7 days ago, or failed and created more than 30 days ago; it appears only by a commit or when a copy of a vanished row is merged |
| OutboxRows.ResetExactly | workers/outbox_relay.py:126-136 | The reset leaves a publishing row alone if and only if it is at most five minutes old |
| OutboxRows.SendSettles | workers/outbox_relay.py:228-243 | A send settles the copy (published with its time, or one more try and failed at the tenth), the topic and the count of failures, and nothing in the table |
| OutboxRows.CrashForgets | workers/outbox_relay.py:217-247 | A relay that dies while sending leaves the table as it was, and may have delivered the row it was sending |
| OutboxRelay.Relay.PickBatch | workers/outbox_relay.py:73-81 | The earliest pending rows in creation order, at most 100, none passed over for a later one |
| OutboxRelay.Relay.ClaimBatch | workers/outbox_relay.py:55-84 | The batch becomes publishing, nothing else changes, and the copies are those rows |
| OutboxRelay.Relay.PublishAll | workers/outbox_relay.py:228-243 | Each claimed row is sent once, in order, and each copy takes the outcome of its own send |
| OutboxRelay.Relay.ConfirmBatch | workers/outbox_relay.py:90-106 | The table is overwritten by the copies |
| RelayAccounts.MergeIsOverwrite | workers/outbox_relay.py:103-106 | With no other relay, merging the columns that differ from the loaded rows is overwriting the rows |
| OutboxRelay.Relay.Round | workers/outbox_relay.py:217-247 | One iteration, with rows committed between its claim and its confirmation: sends exactly its batch, leaves exactly the table of those outcomes, counts a publish exactly when some send was acknowledged, and ends with no row publishing |
| RelayRuns.RoundIsARun | workers/outbox_relay.py:217-247 | That iteration is a run of the relay machine: claim, commits, one send per row, the loads of the merge and its commit, to the same table, topic and failure counts |
| OutboxRelay.Relay.RelayLoop | workers/outbox_relay.py:187-255 | Any number of iterations beside arriving rows: the accounts of every row hold, the stuck-row reset recovers none, pauses follow the backoff rule, the machine has a run to the same place; with acknowledged sends the backlog is exactly what arrivals and batches of 100 leave, and with rows visible in increasing creation time the topic is in creation order |
| OutboxRelay.BacklogDrains | workers/outbox_relay.py:49-82 | With nothing arriving and acknowledged sends, n pending rows take exactly ⌈n/100⌉ rounds |
| RelayAccounts.QuietPauses | workers/outbox_relay.py:49-51 | After a round that published, rounds that publish nothing pause 2, 4, 8, 16, 30, 30 seconds |
| OutboxRelay.Relay.Maintain | workers/outbox_relay.py:208-214 | The periodic part at a loop head: the reset finds no row and changes nothing, cleanup removes no row that is still to be sent |
| OutboxRelay.Relay.RecoverStuckRows | workers/outbox_relay.py:110-138 | The reset and its row count |
| OutboxRelay.Relay.CleanupPublishedRows | workers/outbox_relay.py:145-183 | The two deletes and their row counts; no row still to be sent is deleted |
| RelayAccounts.SendAccounted | workers/outbox_relay.py:229-243 | One send moves a row's status, retry count, attempts and acknowledgements together |
| RelayAccounts.SentAtMostTen | workers/outbox_relay.py:237-243 | Every row, deleted ones included, was sent at most ten times and acknowledged at most once; it is in the topic exactly once per acknowledgement and per error that hid a delivery, so at most once if and only if those are at most one together |
| ConsumerRetry.Consumer.ReadRetryCount | consumers/consumer_base.py:73-77 | The header scan: first retry header, zero without one, an error if it is no number |
| ConsumerRetry.Consumer.HandleMessage | consumers/consumer_base.py:57-127 | What is republished, dead-lettered and committed for every combination of header, payload (JSON, not JSON, not text) and outcome, and of Kafka calls that raise: a commit that raises after `process` counts as a failure, one that raises after a send leaves the copy behind |
| ConsumerRetry.RetriedCountsUp | consumers/consumer_base.py:117-122 | A republished message has the body and the other headers of the original, in order, and exactly one retry header, the last, which reads back one higher |
| ConsumerRetry.OthersStay | consumers/consumer_base.py:117-119 | Dropping the retry headers drops nothing else and keeps the order, for every header list |
| ConsumerRetry.FirstHeaderCounts | consumers/consumer_base.py:73-77 | The first retry header decides the count, whatever follows; without one it is zero |
| ConsumerRetry.ReactsExactly | consumers/consumer_base.py:73-123 | Exactly when a delivery raises, is processed, is dead-lettered (not JSON whatever the count, or failing with three retries behind it) and is republished |
| RetryFanout.HandleConserves | consumers/consumer_base.py:99-127 | Realised plus still owed copies (or dead letters, or deliveries) never grows, and is unchanged by a failing delivery of readable JSON |
| RetryFanout.FanoutBounded | consumers/consumer_base.py:107-123 | With G groups and no crashes one message yields at most 1+G+G²+G³ copies, G⁴ dead letters and G+G²+G³+G⁴ deliveries, with equality when everything failed and nothing is outstanding |
| RetryFanout.WorstCaseExists | consumers/consumer_base.py:107-123 | A schedule that reaches the bounds exists for every G |
| RetryOffsets.FinishedMeansHandled | consumers/consumer_base.py:99-127 | With crashes at every await: a message a group has committed past, having begun at or before a copy of it, was processed by that group or is in its dead-letter topic |
| RetryOffsets.HandledHow | consumers/consumer_base.py:78-123 | In every run a group newly processes a message only when `process` returned on a JSON copy of it, newly dead-letters only a copy that is not JSON or came with three retries, and moves its offset by one in a commit after either or after a resend |
| RetryOffsets.SkippedExactly | consumers/consumer_base.py:140-147 | For every run and every message whose copies a group has all committed past: the group handled it if and only if it had done so before the start that fixed its first position, or some copy lies at or after that position |
| RetryOffsets.SkippedSince | consumers/consumer_base.py:140-147 | The same for any start of a group without a commit, whose position then stays |
| RetryOffsets.SkippedByLatest | consumers/consumer_base.py:143-143 | A message passed over: a consumer that dies before its first commit comes back at the end of the topic and its next commit passes over an unhandled message |
| ActivityReadModel.ActivityTable.Insert | alembic/versions/0005_add_transaction_activity.py:17-28 | The inserts of one transaction go in together exactly when no key clashes and every account exists, else the table is as before |
| ActivityReadModel.ActivityTable.Process | workers/activity_consumer.py:61-172 | The rows per event type, a duplicate swallowed whole, a malformed event raised |
| ActivityReadModel.TableIsFunctionOfSet | workers/activity_consumer.py:72-172 | After any history the table holds exactly the rows of the events processed, each once |
| ActivityReadModel.Convergence | workers/activity_consumer.py:168-172 | Histories with the same events in any order and any repetition give the same rows |
| ActivityReadModel.ConstraintsHold | alembic/versions/0005_add_transaction_activity.py:17-28 | Whatever is delivered: every row came from a processed event, belongs to an existing account, and is the only one of its event on that account |
| ActivityReadModel.RowsAreLegs | workers/activity_consumer.py:70-172 | The rows on user accounts are, once each, exactly the ledger's legs of the transactions whose event was processed, with their direction, amount, entry type and reference |
| ActivityReadModel.EveryLegHasItsRow | workers/activity_consumer.py:70-172 | Once every event was processed, every leg on a user account has its row |
| ActivityReadModel.ActivityMatchesLedger | workers/activity_consumer.py:70-172 | For every non-system account the activity total is `get_balance` restricted to transactions whose event was processed |
| ActivityReadModel.ActivityIsBalance | app/services/account_service.py:65-80 | Once every event was processed the activity total is the balance |
| Pipeline.ReadModelConverges | app/events/publisher.py:30-61 | In any state of any run of the posting services, for any deliveries of its outbox: the two statements above, with the ledger and the outbox that run produced |
| Pipeline.RowsAreTheLedgers | app/events/publisher.py:30-61 | In any state of any run of the posting services, for any deliveries of its outbox: the rows on user accounts are exactly the legs of the processed transactions |
| Pipeline.ShortByUnprocessed | workers/activity_consumer.py:70-172 | In any state of any run, whatever was lost or is on its way: every user's activity total is the balance less exactly the legs of transactions whose event the group has not processed |
| Pipeline.UnprocessedWasGivenUp | consumers/consumer_base.py:107-116 | Once relays have nothing left to send and the group has finished with the topic, an unprocessed event was given up after ten failed sends or is in the group's dead-letter topic |
| Pipeline.HandledExactly | consumers/consumer_base.py:99-127 | A group that has finished with the topic processed or dead-lettered exactly what the relays delivered |
| Pipeline.EndToEnd | workers/outbox_relay.py:187-255 | Postings, relays and consumers together, each in any run of its machine: once relays that crashed and merged stale copies at will have nothing left to send and gave nothing up, and the activity group, crashed and restarted at will, has finished with the topic and dead-lettered nothing, every user's activity total equals the balance and is not negative, and every leg on the account has its row |
| Backfill.Store.Backfill | management/backfill_events.py:53-173 | The three loops emit the account, transfer and seed events, unless the guard finds an earlier run |
| Backfill.Store.BackfillTwice | management/backfill_events.py:68-77 | Over any outbox: what two unforced runs emit, and that the guard stops the second exactly when an account event was there before the first or there was an account to open |
| BackfillTheorems.EmittedExactly | management/backfill_events.py:79-173 | A run publishes exactly: one opening per user account, a completion or a failure per finished transfer, a seed per seed credit leg, each under its derived id |
| BackfillTheorems.BackfillAccountsForLedger | management/backfill_events.py:102-173 | On a quiescent ledger of seeds and transfers the emitted events account for every leg exactly once |
| BackfillTheorems.BackfillRebuildsReadModel | management/backfill_events.py:48-173 | Run once or any number of times, delivered in any order, it gives every user account its balance |
| BackfillTheorems.BackfillRowsRepeat | management/backfill_events.py:48-173 | One run and any number of forced runs, delivered in any order, leave the same rows in the read model |
| BackfillTheorems.BackfillBesideLiveEventsDoubles | management/backfill_events.py:45-50 | If the live events are delivered too, every activity total is twice the balance, so the read model agrees exactly for accounts whose balance is zero |

## Left out

- HTTP routers, schemas, authentication, correlation ids, health, logging and configuration; the bodies of the notification and audit consumers, which appear only as further groups.
- Scheduled payments: their poll and execution functions are unimplemented stubs.
- Currency, destination fields, actor ids, `occurred_at` and the transaction list with its pagination.
- Sub-tick amounts, which Python and Postgres round differently.
- Redis, Kafka and Postgres beyond atomic steps: share locks taken by foreign keys are outside the lock model, and Postgres's deadlock detector appears only as a process that dies; accounts are never deleted or deactivated while transactions run.
- Redis or rail exceptions inside the handler, which end its process, are its death; a rejected or failed send is taken as not accepted by the rail.
- `rejected` deposits carry no reason; the INVALID_AMOUNT branch of app/services/deposit_service.py cannot be reached because the table's CHECK refuses the row first, as the model does.
- PaymentServices.Services.CreateWithdrawal: is the path of a process that survives; deaths and recovery are in WithdrawalSaga. Cached and uncached replies to a withdrawal key are not claimed equal: the database path compares no request hash and checks the balance first.
- SagaRecovery.RecoveryWorker.ResolveOne: reads the clock twice, at the start and at the commit; the source reads it at each column.
- TransferService.CacheRefinesDatabase: the database part of a call is one step; how such parts interleave is in PostingProtocol, where a cache hit starts no transaction.
- OutboxRelay.Relay.RelayLoop: runs for a given number of rounds instead of for ever; one clock serves as its monotonic timer and for the timestamps.
- RetryOffsets.FinishedMeansHandled: the topics and partitions of a group are one log; rebalancing is a crash and a start.
- Outbox: delivery order with several relays and exactly-once publishing, which the relay does not provide.
- RetryFanout.FanoutBounded: a commit that raises, and a crash between republish and commit, are in RetryOffsets and HandleMessage only; the copies they add are not counted.
- ConsumerRetry.Consumer.ReadRetryCount: header bytes are a number or not a number; the decimal decoding is not modelled.
- ActivityReadModel.ActivityTable.Process: a foreign-key violation is swallowed like a duplicate, as in the source; envelope parsing is reduced to well-formed or not. The accounts of the final state stand for those at each delivery, since an event is committed only when its accounts exist.
