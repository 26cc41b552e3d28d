# Nexios finance: verified model of payments, transfers and the database wire protocol

This Dafny project models the parts of the Nexios finance backend that move or record money, and proves what they
promise for every input, every scheduling and every bank reply.

* **The payment saga.** A payment is planned greedily over the user's assets (`Planner`), then executed by one goroutine
  per leg: circuit breaker, provider lookup, bank call, check-then-save in the ledger, outbox event, breaker result. When
  a leg fails, one goroutine per succeeded leg reverses it (`Saga`). The model is a step system: each goroutine has a
  program counter, each mutex-protected call is one atomic step, and scheduling, bank replies, clocks and the activity
  of other transactions are arbitrary. `SagaInvariant` and `SagaLedger` state what every step keeps, `SagaIndexes` that
  the ledger's indexes agree throughout, `SagaSafety` what holds at the end, `SagaProgress` termination and confluence,
  `SagaOracles` which outcomes can occur, `SagaTraces` what each leg's own calls make of it, `SagaBreaker` when the circuit
  breaker stops it, `SagaKeyReuse` a concrete run that goes wrong, `Payments` the life cycle around it. The shared objects it steps over are the classes in `Ledger` and `CircuitBreaker`; `Resolver` is the registry whose
  methods are proved to be the registration and lookup steps of the saga. The idempotency keys are in `IdempotencyKeys`,
  on top of the identifier printer in `Uuid`.
* **The account transfer engine.** The service builds balanced legs (`AccountService`, `Distribution`); the in-memory
  store validates and then applies them (`MemoryStore`), the Postgres store runs guarded updates one by one inside a
  transaction and writes a double-entry ledger (`PostgresStore`). `StoreRefinement` proves that they agree, and
  `TransferRuns` treats service calls that read first and execute later, in any interleaving; `TransferOwnership` says
  whose accounts such calls debit and credit and what they put on record.
* **The Postgres wire codec.** Framing (`PgFraming`), nullable values (`PgValues`), row descriptions (`PgColumns`),
  command tags (`PgCommandTag`), the client connection (`PgConnection`) and how calls stay in step with replies
  (`PgSession`), following sections 55.2.3, 55.6 and 55.7 of the PostgreSQL 16 documentation.

Objects whose methods update their fields are classes whose methods are proved against a function of the old state; the
theorems are lemmas about those functions. `dafny verify dfyconfig.toml` checks everything.

## Properties found false, with their exact conditions

* A plan pushes no asset below its safety threshold exactly when it draws on no asset whose subtraction
  `available - threshold` underflows 64 bits; told beforehand, when no such active asset is reached before the assets of
  higher priority cover the amount (`Planner.PlanKeepsThresholds`). `Planner.UnderflowIsPlanned` is a plan that does.
* A failed payment does not always net to zero. Every run that ends in an error does exactly when, for each leg of the
  plan, the settlement key and the reversal key are in the ledger beforehand either both or neither, or the plan has at
  most one leg (`SagaOracles.EveryErrorNetsToZeroIff`); for one given run, the succeeded legs decide
  (`SagaSafety.ErrorNetsToZero`). A key not used before is the special case callers rely on
  (`SagaSafety.FreshErrorNetsToZero`); a key used twice is the failing one (`SagaKeyReuse.ReusedKeyLeavesMoney`).
* A ledger write keeps the two indexes in agreement exactly when the derived credit key is new as well
  (`Ledger.PostConsistentIff`); the engine's own keys always meet that.
* Transactions, transfer rows and outbox rows of the database are in bijection as long as operations have legs: one call
  keeps the bijection exactly when it has legs or its reference is already taken (`PostgresStore.CallPostsIff`). An operation
  without legs commits a transfer row and an outbox row but no ledger entry (`PostgresStore.EmptyOperationIsNotPosted`).
  Service operations always have legs (`TransferRuns.ServiceRowsInBijection`).
* The two stores do not accept the same operations. The database accepts balanced legs exactly when each leg, in turn,
  leaves an existing active account other than clearing non-negative, and the reference is new; the memory store exactly
  when each debit, taken alone, is covered. They accept alike exactly when these conditions are both true or both false
  (`StoreRefinement.AcceptAlikeIff`), and give the same answer exactly as `StoreRefinement.StoresAgree` says. Two debits
  of one account can pass in memory only (`StoreRefinement.StoresDifferOnRepeatedDebits`), and a debit covered by an earlier
  credit of the same operation in the database only (`StoreRefinement.StoresDifferOnCoveredDebit`). Both repeat an account,
  which no operation of the service does (`TransferRuns.RepeatedAccountsAreNotEmitted`); on those the stores answer alike
  unless the generated reference is already taken (`TransferRuns.ServiceStoresAgree`).
* A printed amount reads back for every 64-bit number but the smallest (`Decimal.ReadOfPrint`).
* A message reads back exactly when it has a type byte and its length field does not wrap (`PgFraming.ReadOfFrame`),
  a parameter list exactly when its count fits 16 bits and every length 31 bits (`PgValues.RowOfParams`), and a counted
  tag exactly when its numeral fits 64 bits (`PgCommandTag.CountOfTag`).

## Where code and comments differ

The model follows the code. The comment on `computeDistribution` speaks of filling accounts up to their floor or by
headroom; the loop splits evenly, and only the order of accounts depends on the floor. `compensateLeg` marks only its
own copy of a leg COMPENSATED, so the plan of a rolled-back payment still shows SETTLED legs. A half-open breaker lets
any number of probes through. `FetchUnpublished` returns one event even for a limit of zero. The idempotency key of a
Postgres transfer is combined with a fresh transaction identifier, so repeating a transfer under the same key is not
deduplicated.

## Model

| member | source | states |
|---|---|---|
| SagaInvariant.NextShape | internal/orchestrator/executor.go:48-149 | every step of a leg, a compensation, the two joins or another transaction keeps the structure of the run: what each goroutine's leg looks like at its position, compensations one to one with the succeeded legs, and the status matching the phase |
| SagaLedger.InvHolds | internal/orchestrator/executor.go:48-149 | every state of every run, whatever the interleaving, bank replies and other transactions, satisfies the invariant relating goroutine positions, keys, the transaction's entry list, outbox events and bank effects |
| SagaLedger.OtherLedger | internal/ledger/memory_repository.go:25-36 | writes of other transactions under other keys leave this transaction's keys and entry list alone |
| SagaSafety.FinishedLog | internal/orchestrator/executor.go:53-95 | at the end, the transaction's ledger entries are a permutation of the settlement batches of the succeeded legs followed by the reversal batches, whatever the interleaving |
| SagaSafety.ErrorNetsToZero | internal/orchestrator/executor.go:82-92 | a payment that ends rolled back or failed nets to zero on every account if and only if each succeeded leg had both or neither of its two keys in the ledger beforehand |
| SagaOracles.EveryErrorNetsToZeroIff | internal/orchestrator/executor.go:82-92 | told before the call: every run that ends in an error nets to zero on every account if and only if each leg of the plan has both or neither of its two keys in the ledger, or the plan has at most one leg |
| SagaKeyReuse.ReusedKeyLeavesMoney | internal/orchestrator/rollback.go:67-77 | a concrete second payment under a used client key: with its first leg accepted and its second refused, some run ends in an error and does not net to zero |
| SagaSafety.FreshErrorNetsToZero | internal/orchestrator/executor.go:82-92 | under a key not used before, whenever Execute returns an error, debits and credits of the transaction cancel on every account |
| SagaSafety.BanksAfterError | internal/orchestrator/rollback.go:48-78 | ROLLED_BACK means every successful bank payment was reversed; FAILED means exactly the sources named in the returned error, at least one, are still outstanding at their banks |
| SagaSafety.ReversalsFindTheirProvider | internal/orchestrator/resolver.go:25-45 | in every run, a provider resolved for a settlement still resolves for its compensation, so a compensation can only fail by the bank's refusal |
| SagaSafety.ApprovedSettlesAll | internal/orchestrator/executor.go:94-95 | an approved payment has every leg settled, paid, not reversed and announced by exactly one event, and its entries are a permutation of one settlement batch per leg |
| SagaSafety.SettleLogTotals | internal/ledger/service.go:30-60 | the settlement batches debit only clearing, credit only sources, and both sides total the legs' amounts |
| SagaProgress.StepsDecrease | internal/orchestrator/executor.go:53-95 | each step of the payment decreases a measure of the work left, and steps of others leave it unchanged |
| SagaProgress.RunsAreBounded | internal/orchestrator/executor.go:53-95 | no execution takes more than 12 steps per leg plus a join and a conclusion |
| SagaProgress.NeverStuck | internal/orchestrator/executor.go:53-95 | an unfinished payment always has a step of its own to take |
| SagaProgress.Confluence | internal/orchestrator/executor.go:53-95 | two runs whose legs and compensations get the same outcomes end with the same plan in plan order, the same error, the same status and the same ledger entries up to order, however they interleave and whatever else happens |
| SagaTraces.LegsTellTheirStory | internal/orchestrator/executor.go:98-149 | when a payment ends, each leg is as planned except for its outcome, which is that of its own calls in order: FAILED with the fault of the first of breaker, provider and account reference that refused it, FAILED with the bank's message, or SETTLED under the reference the bank gave, after a lookup of its key and the writes if it was missing; and every bank reply has been reported to the breaker |
| SagaTraces.ApprovedIffAllAccepted | internal/orchestrator/executor.go:66-95 | a finished payment is approved if and only if every leg's bank call was made and accepted |
| SagaTraces.ProviderGate | internal/orchestrator/executor.go:105-110 | a leg that looks up its provider fails for want of it if and only if it was registered neither before the run nor in it before the lookup |
| SagaTraces.AccountRefGate | internal/orchestrator/executor.go:112-117 | the same for the account reference |
| SagaBreaker.BreakerFollows | internal/orchestrator/executor.go:99-123 | throughout a run the breaker is in the state of the history of its questions and results, where the result of a leg is a failure exactly when its bank declined, interleaved with events of others |
| SagaBreaker.BreakerGate | internal/orchestrator/executor.go:99-103 | a leg that asks the breaker ends with an open circuit if and only if as many of its provider's latest results as the threshold failed or were slow and the open duration has not passed since; otherwise it goes on to its provider |
| SagaOracles.RealisedIff | internal/orchestrator/executor.go:98-149 | with the breaker also in use by others, whose effect on it is arbitrary, an outcome foretold for each leg and reversal is reached by some complete run if and only if every missing registration it names is missing at the start and each accepted leg has a reply foretold when another is refused |
| SagaIndexes.IndexesAgreeThroughout | internal/ledger/service.go:31-48 | in every state of every interleaving each keyed entry occurs exactly once in its transaction's list and base and credit keys come in pairs, although checking and saving are separate steps, if other transactions also save only under keys they found missing |
| SagaProgress.FirstFaultIsLowest | internal/orchestrator/executor.go:70-80 | the returned error is that of the failing leg with the lowest index |
| SagaProgress.CollectResults | internal/orchestrator/executor.go:66-80 | the loop after the join returns the plan in order, whether any leg failed, the error of the first failing leg and the succeeded legs in order |
| SagaProgress.CollectFailures | internal/orchestrator/rollback.go:48-58 | the loop after the second join collects the failures in order, and none exactly when every compensation succeeded |
| Payments.Transaction.Authorize | internal/orchestrator/service.go:26-59 | the status life cycle: FAILED with the unchanged plan when assets are unavailable or planning fails, and otherwise the final status, plan and failure of the execution of exactly the planned legs |
| Payments.ApprovedPaysExactly | internal/orchestrator/service.go:38-58 | planned and approved under a fresh key: every leg is settled with one batch and one event, and the totals debited to clearing and credited to sources both equal the requested amount |
| Payments.ErrorLeavesNothing | internal/orchestrator/service.go:50-58 | planned but not approved under a fresh key: every account nets to zero and the banks hold exactly the payments whose reversal is reported as failed |
| Planner.BuildPlan | internal/orchestrator/planner.go:21-69 | the loop with its early exit computes the specification function about which the plan lemmas speak |
| Planner.PlanIsComplete | internal/orchestrator/planner.go:21-68 | planning succeeds if and only if the amount is positive and the usable balances together cover it, and which error is returned otherwise |
| Planner.PlanIsExact | internal/orchestrator/planner.go:29-68 | legs are positive, sum exactly to the request, stay within what each asset can contribute, follow stable priority order, and every usable asset before a leg is drained, so only the last leg may be partial |
| Planner.PlanFollowsPriority | internal/orchestrator/planner.go:29-68 | in terms of positions in the input: the legs draw on assets of ascending priority, equal priorities in input order, every usable asset of lower priority number, or of the same and earlier in the input, is drained, and each leg carries its asset's identifier, provider and type, is PENDING and has no reference |
| Planner.PlanKeepsThresholds | internal/orchestrator/planner.go:40-62 | every asset drawn on keeps its safety threshold if and only if none of them underflows, and if and only if every active asset that underflows comes after assets that cover the amount |
| Planner.UnderflowIsPlanned | internal/domain/asset.go:37-40 | a plan for any positive amount that draws on an account already far below its threshold |
| Planner.GreedyDominates | internal/orchestrator/planner.go:40-62 | for every feasible allocation and every k, the plan draws at least as much from the first k assets |
| Planner.GreedyIsCheapest | internal/orchestrator/planner.go:40-62 | the plan has the lowest cost under every price that does not decrease along the priority order |
| Planner.PlanSourcesDistinct | internal/orchestrator/planner.go:40-62 | assets with distinct identifiers give legs with distinct sources, which the saga requires |
| StableSort.SortIsStable | internal/orchestrator/planner.go:29-34 | the sort returns a sorted permutation that keeps the order of equally ranked elements |
| StableSort.StableSortUnique | internal/orchestrator/planner.go:29-34 | any stable sort returns that same sequence, so the library's algorithm does not matter |
| StableSort.SortPositions | internal/orchestrator/planner.go:29-34 | the positions in the input from which the sorted elements come ascend by rank and, within a rank, by position, and each occurs once |
| Domain.ThresholdIsSafe | internal/domain/asset.go:33-42 | drawing any amount that counts as usable leaves the safety threshold intact if and only if the 64-bit subtraction does not underflow, and an active asset for which it does has something to give |
| Domain.UsableIs | internal/domain/asset.go:33-42 | the usable balance of an active asset is what exceeds its threshold, or zero, while the difference fits in 64 bits, and what it is when it does not |
| Domain.IsBalanced | internal/domain/ledger.go:32-43 | the balance test compares the two totals modulo 2^64, and exactly so while they fit in 64 bits |
| Resolver.StaticResolver.RegisterProvider | internal/orchestrator/resolver.go:25-29 | registering adds or replaces one provider, which a payment in progress sees as the saga's registration step |
| Resolver.StaticResolver.RegisterAccountRef | internal/orchestrator/resolver.go:31-35 | the same for an account reference |
| Resolver.StaticResolver.ResolvePIS | internal/orchestrator/resolver.go:37-45 | resolving succeeds exactly for registered providers, returns what was registered, and decides the saga's provider lookup step |
| Resolver.StaticResolver.ResolveAccountRef | internal/orchestrator/resolver.go:47-55 | the same for account references and the saga's account lookup step |
| CircuitBreaker.Breaker.Allow | internal/orchestrator/circuitbreaker.go:47-61 | answer and new state of the three-state machine for one provider |
| CircuitBreaker.Breaker.RecordResult | internal/orchestrator/circuitbreaker.go:63-79 | new state after a result: a failing or slow one counts up and opens at the threshold, a good one resets |
| CircuitBreaker.AllowFollowsHistory | internal/orchestrator/circuitbreaker.go:47-79 | under a monotone clock a call is allowed if and only if the trailing run of failing-or-slow results is shorter than the threshold or the last of them is at least the open duration ago, so half-open is unobservable; closed means the counter is below the threshold |
| CircuitBreaker.RefusedIffIsolated | internal/orchestrator/circuitbreaker.go:47-79 | under a monotone clock a provider is refused if and only if its last results, as many as the threshold, each failed or took longer than the latency threshold, and less than the open duration has passed since the last of them |
| CircuitBreaker.ConfiguredBreaker | internal/orchestrator/circuitbreaker.go:27-79 | the same in terms of the constructor's arguments when they are positive |
| CircuitBreaker.DefaultBreaker | internal/orchestrator/circuitbreaker.go:28-36 | absent arguments mean three failures, five seconds and 150 milliseconds |
| CircuitBreaker.ProvidersAreIndependent | internal/orchestrator/circuitbreaker.go:47-79 | the answer for one provider is unchanged when the events of all others are dropped |
| IdempotencyKeys.KeysNeverCollide | internal/orchestrator/executor.go:119-119 | over all transaction keys and identifiers, the settlement, settlement-credit, reversal and reversal-credit keys are injective and pairwise disjoint |
| IdempotencyKeys.EntryKeysNeverCollide | internal/accounts/postgres_repository.go:301-301 | ledger keys of different transactions or positions differ, whatever the client's key was |
| IdempotencyKeys.KeySpellings | internal/ledger/service.go:43-76 | the keys character by character, with their suffixes |
| Ledger.InMemoryRepository.SaveBatch | internal/ledger/memory_repository.go:25-36 | a batch is refused exactly when its totals differ modulo 2^64, leaving both indexes unchanged, and otherwise filed in both |
| Ledger.InMemoryRepository.EntryExists | internal/ledger/memory_repository.go:38-43 | true exactly for keys in the index |
| Ledger.InMemoryRepository.GetEntriesByTransaction | internal/ledger/memory_repository.go:45-49 | exactly the transaction's list |
| Ledger.InMemoryOutbox.Enqueue | internal/ledger/outbox.go:36-41 | adds or replaces one event and leaves the others |
| Ledger.InMemoryOutbox.FetchUnpublished | internal/ledger/outbox.go:43-56 | returns distinct unpublished events, at most the limit but never fewer than one, and all of them when it returns fewer than that |
| Ledger.InMemoryOutbox.MarkPublished | internal/ledger/outbox.go:58-66 | marks that one event if it exists and changes nothing else |
| Ledger.Service.RecordSplitSettlement | internal/ledger/service.go:30-60 | succeeds, and writes batch and event exactly when the key is new |
| Ledger.Service.RecordCompensation | internal/ledger/service.go:62-84 | succeeds, and writes the reversed batch exactly when the key is new |
| Ledger.WrittenEntries | internal/ledger/service.go:36-84 | under a new key a settlement debits clearing and credits the source, a compensation the reverse, by the leg's amount, both filed under the transaction, the debit under the key and the credit under the key with its suffix; only a settlement adds an event, unpublished |
| Ledger.ReplayIsIdempotent | internal/ledger/service.go:30-84 | any list of record calls leaves the same books as the list with repeated keys dropped |
| Ledger.PostConsistentIff | internal/ledger/service.go:43-44 | writing under a new base key keeps every keyed entry exactly once in its transaction's list if and only if the derived credit key is new too |
| Ledger.IndexesAgree | internal/ledger/memory_repository.go:25-49 | in every reachable ledger each keyed entry occurs exactly once in its transaction's list and base and credit keys come in pairs |
| Ledger.LedgerIsTheWrittenCalls | internal/ledger/service.go:30-84 | each transaction's list is exactly the batches of the calls that wrote, in order, and its debits equal its credits |
| Ledger.OutboxMatchesSettlements | internal/ledger/service.go:49-59 | with fresh event identifiers, events and written settlement batches match one to one |
| Distribution.ComputeDistribution | internal/accounts/service.go:192-236 | the filtering, sorting and splitting loops compute the specification function of the next two rows |
| Distribution.DistributionFails | internal/accounts/service.go:192-236 | a distribution succeeds if and only if the amount is positive and some active non-clearing account exists |
| Distribution.DistributionIsExact | internal/accounts/service.go:192-236 | splits are positive, on distinct eligible accounts in stable non-floor-then-creation order, sum exactly to the amount, and equal the closed form: equal shares with the remainder on the last, or all to the first when there are more accounts than units |
| Distribution.DistributionFollowsOrder | internal/accounts/service.go:192-236 | in terms of positions in the listing: the active non-clearing accounts that need no floor come first, then the others, each group by creation time and then by position; each gets the quotient, the last one the remainder too, and with fewer units than accounts the first gets them all |
| MemoryStore.MemoryStore.ExecuteTransfer | internal/accounts/memory_repository.go:173-232 | the result and the whole new state: a rejected operation changes nothing, an accepted one applies every leg and appends one record |
| MemoryStore.MemoryStore.CheckDebits | internal/accounts/memory_repository.go:186-200 | the first debit leg whose account is missing, inactive or, except for clearing, short of funds decides the error |
| StoreRefinement.FirstUncovered | internal/accounts/memory_repository.go:186-200 | the answer is the reason of the first debit not covered by the balance before: missing account, inactive account, or short of funds |
| Accounts.Touched | internal/accounts/memory_repository.go:203-212 | an account named by a leg changes its balance by everything the legs move to it and its update time, and nothing else; an account not there before appears as the empty record with that balance |
| MemoryStore.MemoryStore.ListTransfersByUser | internal/accounts/memory_repository.go:161-171 | the user's transfers newest first, cut at a positive limit |
| MemoryStore.NewestOrder | internal/accounts/memory_repository.go:161-171 | the list holds the user's transfers at the positions of the log that `NewestAt` gives, which the next two rows say are all of the user's, falling |
| MemoryStore.NewestAtCovers | internal/accounts/memory_repository.go:161-171 | a position is listed if and only if the transfer there is the user's |
| MemoryStore.NewestAtDescends | internal/accounts/memory_repository.go:161-171 | later in the list means earlier in the log |
| MemoryStore.MemoryStore.ListAccountsByUser | internal/accounts/memory_repository.go:107-117 | every account of the user exactly once, in any order |
| MemoryStore.MemoryStore.FindUserByQuery | internal/accounts/memory_repository.go:149-159 | a user whose number or name is the query up to case and surrounding blanks, or an error exactly when there is none |
| PostgresStore.PostgresStore.UpdateBalances | internal/accounts/postgres_repository.go:254-286 | the guarded updates in order, stopping at the first that matches no row with the error that explains it |
| StoreRefinement.FirstUnsustained | internal/accounts/postgres_repository.go:254-286 | the answer is the reason of the first leg whose account is missing, inactive, or left negative by the legs up to it |
| PostgresStore.PostgresStore.InsertEntries | internal/accounts/postgres_repository.go:294-309 | the ledger rows are inserted in order unless one violates the unique key |
| PostgresStore.PostgresStore.ExecuteTransfer | internal/accounts/postgres_repository.go:234-358 | any failure leaves all four tables unchanged; otherwise balances, entries, transfer row and outbox row change together |
| PostgresStore.FreshInsert | internal/schema/migrations/0001_init.sql:40-49 | with a fresh transaction identifier the unique idempotency key is never violated, whatever key the client sent |
| PostgresStore.ExecuteKeepsBooks | internal/accounts/postgres_repository.go:288-357 | a transfer keeps the tables consistent and moves every balance by what the ledger records |
| PostgresStore.LedgerExplainsBalances | internal/accounts/postgres_repository.go:288-357 | over every run each balance equals its initial value plus credits minus debits, every transaction in the ledger balances and has a transfer row, and transfer rows and outbox rows are in bijection |
| PostgresStore.EachCallFilesItsEntries | internal/accounts/postgres_repository.go:294-309 | over every run the entries under a call's transaction are exactly its own legs' entries if it committed, and none if it did not |
| PostgresStore.LedgerRecordsTheLegs | internal/accounts/postgres_repository.go:294-309 | over every run the entries under a committed call's transaction are as many as its legs; each has its leg's account, the operation's currency and the size of the movement, and is a DEBIT if and only if the leg takes money |
| PostgresStore.CommittedRows | internal/accounts/postgres_repository.go:311-352 | a committed call appends the transfer row with the operation's fields and the generated ones, and an unpublished event carrying it |
| PostgresStore.CallPostsIff | internal/accounts/postgres_repository.go:294-343 | one call keeps transactions, transfer rows and outbox rows in bijection if and only if it has legs or its reference is already taken |
| PostgresStore.RowsInBijection | internal/accounts/postgres_repository.go:288-357 | over every run of operations with legs, transactions, transfer rows and outbox rows are in bijection |
| PostgresStore.EmptyOperationIsNotPosted | internal/accounts/postgres_repository.go:294-352 | an operation without legs commits one transfer row and one outbox row and no ledger entry |
| TransferRuns.ServiceRowsInBijection | internal/accounts/service.go:55-183 | over every run of operations the service emits, transactions, transfer rows and outbox rows are in bijection |
| TransferRuns.ServiceEntries | internal/accounts/service.go:55-183 | over every run of operations the service emits, each committed one is recorded by a single debit of its amount and by credits, all amounts positive, and the two sides are equal |
| StoreRefinement.UpdatesRefine | internal/accounts/postgres_repository.go:254-286 | for all legs and tables the sequential guarded updates fail with the error of the first leg that is not sustained by the balances before the operation and the legs up to it, and otherwise equal applying the legs in order |
| StoreRefinement.AcceptAlikeIff | internal/accounts/memory_repository.go:186-200 | for all legs and tables: the guarded updates succeed if and only if every leg is sustained in turn, the validation in memory if and only if every debit is covered alone, so both accept or both reject if and only if these two conditions agree |
| StoreRefinement.StoresAgree | internal/accounts/postgres_repository.go:234-286 | the stores give the same answer if and only if the legs do not balance, or both object first with the same error, or neither objects and the reference is new |
| StoreRefinement.SameEffect | internal/accounts/memory_repository.go:203-231 | operations answered alike reach the same balances, accepted ones append the same record, and rejected ones change nothing in either store |
| StoreRefinement.StoresAgreeOnDistinctLegs | internal/accounts/postgres_repository.go:254-286 | when no account repeats, credits land and nothing is overdrawn, the stores give the same answer except that the database rejects what the memory store accepts exactly when the reference is taken |
| StoreRefinement.StoresDifferOnRepeatedDebits | internal/accounts/memory_repository.go:186-200 | an operation with two debits of one account that the memory store accepts and the database refuses |
| StoreRefinement.StoresDifferOnCoveredDebit | internal/accounts/memory_repository.go:186-200 | an operation with a debit covered only by an earlier credit that the memory store refuses and the database accepts |
| TransferRuns.RepeatedAccountsAreNotEmitted | internal/accounts/service.go:74-183 | no operation the service emits names an account twice |
| AccountService.Service.TransferOwn | internal/accounts/service.go:55-89 | the checks in order with their errors, then one execution of the balanced pair of legs; the store changes only through it |
| AccountService.Service.TransferP2P | internal/accounts/service.go:93-142 | the checks, the recipient found by the query and the account chosen among the recipient's, then one execution |
| AccountService.OwnAnswers | internal/accounts/service.go:56-88 | the answer to an own transfer from the two accounts as read: the first check that fails and its error, among them an account of somebody else, or the operation field by field |
| AccountService.P2PAnswers | internal/accounts/service.go:94-141 | the same for a transfer to another user, from the account and the recipient as read |
| AccountService.P2PIsListed | internal/accounts/service.go:110-141 | an accepted transfer to another user pays the first active account of the listing, which belongs to the recipient found, and comes first in the sender's list with the request's fields |
| AccountService.OwnIsListed | internal/accounts/service.go:74-88 | an accepted own transfer comes first in the user's list with the request's fields |
| AccountService.Service.TransferDistribute | internal/accounts/service.go:152-183 | one execution of the computed splits against the clearing account |
| AccountService.Service.MustOwnActiveAccount | internal/accounts/service.go:238-250 | the account if it exists, belongs to the user and is active, and otherwise which error |
| AccountService.Service.TotalLiquidity | internal/accounts/service.go:40-52 | the sum, in wrapping 64-bit arithmetic, of the balances of the user's active accounts |
| AccountService.OwnEmits | internal/accounts/service.go:74-88 | every operation emitted for an own transfer, from accounts read at two different moments, is a positive debit and the same credit on two distinct existing active accounts |
| AccountService.P2PEmits | internal/accounts/service.go:125-141 | the same for a transfer to another user, who may be the system user, from an account and a listing read at different moments |
| AccountService.DistributeEmits | internal/accounts/service.go:152-183 | every distribution debits clearing and credits distinct active non-clearing accounts with positive amounts that add up |
| TransferRuns.ServiceStoresAgree | internal/accounts/service.go:55-183 | on every operation the service emits the two stores give the same answer if and only if the operation is rejected or the reference is new |
| TransferRuns.MoneyIsConserved | internal/accounts/memory_repository.go:173-232 | over every interleaving of calls that read first and execute later, the sum of all balances never changes, no account but clearing goes negative, and accounts keep their holders |
| TransferRuns.AuditLogReplays | internal/accounts/memory_repository.go:203-231 | replaying the stored transfer records from the initial balances yields exactly the current balances |
| TransferOwnership.EveryStepIsRightful | internal/accounts/service.go:55-183 | at any point of any interleaving, a step that changes balances ends a call and moves exactly what its request says: out of an account of the requesting user, or out of clearing for a distribution, and into accounts of that user or, between users, of the recipient found |
| TransferOwnership.EveryRequestIsHonoured | internal/accounts/service.go:55-183 | at any point of any interleaving, a step changes the store if and only if it ends a call whose request can be honoured then: a positive amount, the user's own active source with enough money at that moment, and an active destination of the right user, in the same currency for own transfers; for a distribution, an active clearing account and an active account of the user |
| TransferOwnership.EveryStepIsRecorded | internal/accounts/memory_repository.go:214-231 | at any point of any interleaving, a step that changes the store appends one record with its request's fields and the generated ones, which then comes first in the requesting user's list |
| TransferRuns.BalancesStayInRange | internal/accounts/memory_repository.go:203-212 | no balance leaves the 64-bit range at any point of a run while the initial total plus everything drawn from clearing over the run fits in it |
| Uuid.Format | internal/uuid/uuid.go:106-118 | filling the buffer segment by segment yields the lower-case 8-4-4-4-12 text of section 3 of RFC 4122 |
| Uuid.Parse | internal/uuid/uuid.go:60-103 | the parser computes the function of the next three rows |
| Uuid.ParseOfText | internal/uuid/uuid.go:60-118 | parsing a printed identifier gives it back |
| Uuid.TextOfParse | internal/uuid/uuid.go:60-118 | every accepted spelling prints as its lower-cased dashed form |
| Uuid.TextCharacters | internal/uuid/uuid.go:106-118 | each byte is printed as two lower-case hexadecimal digits, high half first, with dashes before bytes 4, 6, 8 and 10 |
| Uuid.ParseAccepts | internal/uuid/uuid.go:60-103 | exactly which texts are accepted, and which error the others get |
| Decimal.ItoaFixed2 | internal/openbanking/iso20022.go:44-68 | the digit loops print sign, whole part and two decimals, with the 64-bit negation wrapping around |
| Decimal.ReadOfPrint | internal/openbanking/iso20022.go:44-68 | reading a printed amount gives it back if and only if it is not the smallest 64-bit integer |
| PgFraming.ReadOfFrame | internal/pgwire/protocol.go:110-147 | reading a written message, with anything after it, gives it back and leaves the rest if and only if it has a type byte and its length fits in 32 bits |
| PgFraming.FrameLayout | internal/pgwire/protocol.go:110-123 | a frame is the type, a big-endian length that counts itself and the body, and the body |
| PgFraming.ReadSplits | internal/pgwire/protocol.go:130-147 | a successful read accounts for its input byte by byte |
| PgFraming.ReadBack | internal/pgwire/protocol.go:110-147 | reading back any concatenation of written messages yields the same messages |
| PgFraming.WriteBack | internal/pgwire/protocol.go:110-147 | whatever can be read to its end as typed messages is the concatenation of their frames |
| PgConnection.Conn.WriteMessage | internal/pgwire/protocol.go:110-123 | the output grows by exactly one frame |
| PgConnection.Conn.ReadMessage | internal/pgwire/protocol.go:130-147 | result and input left over, with the end-of-input and length errors |
| PgValues.AppendParams | internal/pgwire/query.go:55-68 | the buffer grows by exactly the count and one length-prefixed field per argument |
| PgValues.ParseDataRow | internal/pgwire/query.go:173-198 | the offset loop stays in bounds, terminates and computes the row function of the next rows |
| PgValues.RowOfParams | internal/pgwire/query.go:55-68 | reading a parameter block back as a row, with anything after it, gives exactly the arguments including NULLs if and only if there are at most 65535 and each is at most 2^31-1 bytes |
| PgValues.ReadsCompleteFields | internal/pgwire/query.go:178-197 | on every byte sequence a row is read exactly when the declared number of complete fields lies at its front, and holds their values |
| PgValues.FailsOnCutField | internal/pgwire/query.go:180-192 | on every byte sequence reading fails exactly when a declared field is cut short, in its length or in its value, with the corresponding error |
| PgColumns.ParseRowDescription | internal/pgwire/query.go:146-171 | the offset loop computes the description function, including the slice out of range when a further column starts past the end |
| PgColumns.DescriptionOfSent | internal/pgwire/query.go:146-171 | up to 65535 well-formed columns are read back with their names and type OIDs in order |
| PgCommandTag.ParseCommandTag | internal/pgwire/query.go:202-230 | the scanner returns the value of the last run of digits in wrapping 64-bit arithmetic, or zero |
| PgCommandTag.LastRunOf | internal/pgwire/query.go:211-225 | the last run is the digits followed only by non-digits and not extended to the left, whatever comes before |
| PgCommandTag.CountOfTag | internal/pgwire/query.go:200-230 | a tag ending in the numeral of n, with or without its zero byte, counts n if and only if n fits in 64 bits |
| PgCommandTag.CountOfWords | internal/pgwire/query.go:226-229 | a tag without digits counts zero |
| PgConnection.Conn.CollectResults | internal/pgwire/query.go:105-144 | the draining loop returns the outcome, leaves the input and sets the transaction status that the function of the next rows gives |
| PgConnection.Conn.SimpleQuery | internal/pgwire/query.go:23-31 | one query message is written, then one reply is collected |
| PgConnection.Conn.ExecExtended | internal/pgwire/query.go:38-99 | Parse, Bind, Describe, Execute and Sync are written in this order, then one reply is collected |
| PgSession.CallReadsOneReply | internal/pgwire/query.go:105-144 | a call consumes exactly through the next ReadyForQuery and returns the first error in order, or else all rows in order, the last column description and the summed counts |
| PgSession.FirstErrorIsFirst | internal/pgwire/query.go:119-128 | the error reported is that of the first message in order that carries one |
| PgSession.CallsStayInStep | internal/pgwire/query.go:101-144 | n successive calls on a stream of n replies return those replies one by one, whatever errors earlier ones held, and leave exactly what follows |
| PgSession.CallCutShort | internal/pgwire/query.go:110-113 | when the connection breaks off before ReadyForQuery the call reports the read error, even after a server error |
| PgSession.CallAborts | internal/pgwire/query.go:115-116 | a row description that runs past its end aborts the call right after that message |
| PgSession.RequestIsUnderstood | internal/pgwire/query.go:41-93 | the extended request is read back as its five messages; the statement is seen in full if and only if it holds no zero byte, and the arguments if and only if they meet the bounds of the wire format |
| PgSession.BackendFinds | internal/pgwire/query.go:38-93 | a backend finds Parse of the unnamed statement without parameter types, Bind to the unnamed portal with text format for all parameters and columns and the number of arguments, Describe of that portal, Execute of it without a row limit, and a closing Sync |

## Left out

- SagaSafety.FreshErrorNetsToZero: like all saga results, assumes distinct source identifiers (which `Planner.PlanSourcesDistinct` gives for distinct assets), a fresh transaction identifier, and that no other transaction uses the same client key at the same time, because check-then-save is not atomic.
- SagaIndexes.IndexesAgreeThroughout: that other transactions check before they save is a hypothesis on their steps; it is what this transaction is proved to do.
- SagaOracles.RealisedIff: the fresh event identifiers a run needs are given; a state holds finitely many, so they exist as long as identifiers do not run out.
- SagaLedger.InvHolds: goroutines are program counters of a step system instead of methods, because their interleaving is the point; only the two joining loops are methods. Events are not marked published while a payment runs.
- SagaProgress.NeverStuck: a bank call always replies; a timeout is one more way for it to decline, and a decline means that the bank did nothing.
- Ledger.Service.RecordSplitSettlement: entry identifiers, timestamps, the constant currency and failing repositories are not modelled; the in-memory repository and outbox the engine is wired with never fail on its batches.
- Ledger.InMemoryOutbox.FetchUnpublished: the map's iteration order is arbitrary, so only which events are returned is stated.
- Payments.Transaction.Authorize: the wording of failure reasons is replaced by error values.
- MemoryStore.MemoryStore.FindUserByQuery: lower-casing and trimming of Unicode text are parameters, as the standard library's code is not part of this model.
- TransferRuns.MoneyIsConserved: in interleaved runs the recipient lookup may find any user or nobody, since it reads a table no transfer changes; balances are unbounded integers, and TransferRuns.BalancesStayInRange says when they fit 64 bits.
- PostgresStore.PostgresStore.ExecuteTransfer: a conditional update and commit or rollback of the whole transaction are primitives; row locks, foreign keys, BIGINT overflow errors and connection failures are not modelled.
- PgConnection.Conn.CollectResults: the fields of an ErrorResponse stay unparsed; input is everything the backend sends until it closes, and writes and flushes do not fail.
- Uuid.Format: random identifier generation is not modelled; transaction, event and reference identifiers are arguments, and their freshness is assumed where stated.
- The Open Banking network clients, HTTP routing, JSON, bearer authentication, tracing and configuration: plumbing around the modelled calls.
- Account, user and transfer listings of the Postgres store, row scanning, and demo data of both stores.
- TCP connection, startup handshake, MD5 authentication and the database/sql adapter.
- Consent expiry and currency conversion: no modelled path enforces them, apart from the currency check of own transfers.
- formatAmount and BuildPacs008: floating-point rounding and XML.
- Database migrations other than the unique keys, deployment files and the two web applications.
