# GasLeap: a verified model

GasLeap lets an account deposit funds into a sponsorship pool from which other accounts'
cross-chain calls are paid. This project models the parts of it that keep accounts and proves
what they promise.

* `Ledger.dfy` holds the pallet's storage as a value and what each extrinsic does to it, as a
  refusal or an effect in exact arithmetic. `Pallet.dfy` is the pallet itself, a class whose
  methods follow the code: same order of checks and writes, saturating arithmetic, storage layer
  discarded on failure. Every method is proved to compute the ledger's dispatch.
* `Solvency.dfy` shows without any assumption on configuration that no pool's saturating
  arithmetic ever saturates. `Consistency.dfy` is the full invariant (currency, pools, log,
  indexes). Ids are handed out by saturating counters: `Counting.dfy` says what every run keeps
  however many ids it uses, and that a run with no more than 2^32 pools and 2^64 transactions
  keeps everything; `Overwriting.dfy` and `Ownership.dfy` say exactly when and how much the books
  and the owner index lose in the others; `Exhaustion.dfy` reaches such states from genesis;
  `Freshness.dfy` shows how much money that takes.
* `Footprint.dfy` and `Sponsoring.dfy` say for each extrinsic when it succeeds, what each error
  means and what an accepted call changes in the whole state; `Provenance.dfy` says of every cell of
  the storage which accepted call of a run it holds; `Replay.dfy` rebuilds the state from the events;
  `Queries.dfy` is the RPC loops.
* `Gateway.dfy` and `Backoff.dfy` are the stateless gateway below the pallet; `Currency.dfy` is
  the contract of the currency's `reserve`.
* `SavingsTable.dfy` is the database's per-user running total with its trigger; `SavingsApi.dfy`
  is the API's cached read and invalidating write, split at the await points and interleaved
  freely; `ApiServer.dfy` is the server object that takes these steps, and what follows for its
  answers and its cache.
* `Retry.dfy`, `Debounce.dfy` and `DemoHistory.dfy` are the SDK's loops and timers.
* `Arithmetic.dfy` and `MapTotals.dfy` hold integer widths and sums over maps.

A run is any sequence of extrinsics by anybody, passing blocks, and free funds moving outside
the pallet: between accounts, out of existence as burnt fees and dust, or into existence by
minting within the balance type. Block numbers only grow, and no other pallet touches the
reserved funds. `reserve` either refuses without a change or moves the amount; its other reasons
to refuse (locks, existential deposit) are the parameter `withdrawable`. The call hash is an
uninterpreted function.
A run of the savings API begins with no request in progress and with any users' entries cached,
each agreeing with the table at that moment; the clock and read times are bookkeeping of the
model.
`dafny verify dfyconfig.toml` checks the whole project.

Some statements one might expect of the code are false on some inputs; for each the exact
condition is proved.

* Pool ids and transaction ids saturate, and a saturated counter overwrites the last record.
  Reserved funds equal the pools at the end of a run if and only if no pool that held anything
  was overwritten (`ConservedIffNothingOverwritten`), which with a positive minimum deposit means
  at most 2^32 creations (`ConservedIffFewPools`).
* The log is a full audit of the pools at the end of a run if and only if the overwritten records
  and the overwritten spending cancel, all under the last pool id (`AuditedIffLossesCancel`): while
  the pool ids last, if and only if at most 2^64 transactions were sponsored
  (`AuditedIffFewTransactions`); while the transaction ids last, if and only if no pool that had
  spent anything was overwritten (`AuditedIffNoSpendingOverwritten`).
* The owner index keeps the pair of an owner whose pool was taken over. It names exactly the owners
  at the end of a run if and only if no creation took over a pool of another owner
  (`OwnersIndexedIffNoneReowned`); otherwise `get_pools_by_owner_account` also returns the last
  pool to accounts that do not own it (`TakenOverPoolStaysListed`), and never more than that
  (`ListingCovers`).
* A pool's balance bounds what it can sponsor until a creation takes its place, which only the last
  id allows (`BudgetBoundsSponsorships`, `LastPoolRunsDryUntilReplaced`).
* Runs from genesis pass all of these limits (`CheapPoolsLoseMoney`, `CheapTransactionsLoseRecords`,
  `TakenOverPoolLosesSpending`, `TakenOverPoolStaysIndexed`), but none does while the issuance cannot
  pay for all ids (`MoneyBoundsIds`), as in the shipped genesis (`DeployedIdsOutlastMoney`).
* The history loop checks its limit after a push, so a limit of zero returns one record when one
  matches (`HistoryHonoursLimitIff`).
* A receipt for the first transaction is refused, because ids start at zero and zero reads as a
  missing id (`ReceiptAcceptedIff`).
* The 32-bit backoff power wraps in a release build from exponent 32 on
  (`DelayIsSaturatedDoublingIff`); the fee's length cast wraps from 2^32 bytes on
  (`FeeIsLinearIff`), which the gateway's length bound keeps away from successful calls.

The cache is not always coherent once its handlers are done: `RaceLeavesStaleEntry` is the
interleaving, `EntryIsStaleIff` the exact condition and `StaleEntriesAreExcused` the reasons.

## Model

| member | source | states |
|---|---|---|
| Pallet.Sponsorship.CreatePool | pallets/sponsorship/src/lib.rs:301-344 | in code order with a saturating counter, creating a pool has the verdict and the effect of the ledger's dispatch, and solvency is kept |
| Pallet.Sponsorship.FundPool | pallets/sponsorship/src/lib.rs:349-383 | funding by the owner of an active pool, with the saturating addition shown exact |
| Pallet.Sponsorship.UpdatePoolConfig | pallets/sponsorship/src/lib.rs:388-414 | only the owner replaces a pool's configuration, and nothing else changes |
| Pallet.Sponsorship.AddAuthorizationRule | pallets/sponsorship/src/lib.rs:419-442 | only the owner files a rule under its type |
| Pallet.Sponsorship.RemoveAuthorizationRule | pallets/sponsorship/src/lib.rs:447-470 | only the owner removes a rule type |
| Pallet.Sponsorship.SponsorBody | pallets/sponsorship/src/lib.rs:483-552 | the body's verdict, and that a refusal by the gateway leaves exactly the charge and the log record behind |
| Pallet.Sponsorship.SponsorTransaction | pallets/sponsorship/src/lib.rs:475-553 | as dispatched, a refused sponsorship leaves the whole state as it was and an accepted one has the ledger's effect |
| Pallet.Sponsorship.Execute | pallets/sponsorship/src/lib.rs:297-588 | any history of extrinsics, blocks and movements of free funds, carried out by the code, is the ledger's run |
| Pallet.Sponsorship.ProcessReceipt | pallets/sponsorship/src/lib.rs:558-587 | a receipt is accepted or refused by its validator and never changes storage |
| Currency.Balances.TryReserve | pallets/sponsorship/src/lib.rs:319 | reserve refuses without a change or moves the amount; its overflow branch never decides |
| Currency.ReserveMoves | pallets/sponsorship/src/lib.rs:366 | reserving keeps issuance, adds the amount to the reserved total and touches one account |
| Solvency.SaturationNeverBites | pallets/sponsorship/src/lib.rs:369-531 | in a solvent state every saturating operation on a pool field equals the exact one |
| Solvency.EveryRunSolvent | pallets/sponsorship/src/lib.rs:301-587 | in every run of every configuration, no owner's pools account for more than is reserved for that owner, within the balance type |
| Consistency.EffectConserves | pallets/sponsorship/src/lib.rs:319-532 | every call that overwrites no holding keeps reserved funds equal to the pools, per account and in total |
| Consistency.FundKeepsConsistent | pallets/sponsorship/src/lib.rs:366-373 | funding keeps the whole invariant |
| Consistency.SponsorAudits | pallets/sponsorship/src/lib.rs:513-532 | under a fresh id, each pool's spending stays the sum of the log's costs on it |
| Consistency.SponsorKeepsLog | pallets/sponsorship/src/lib.rs:514-527 | records keep their key, a fee in the band, a supported chain, an existing older pool and nondecreasing timestamps |
| Consistency.NextKeepsConsistent | pallets/sponsorship/src/lib.rs:297-588 | any step that hands out a fresh id keeps the full invariant |
| Freshness.IdsAreBacked | pallets/sponsorship/src/lib.rs:309-316 | transaction ids times 802 are at most total spending, total reserved and issuance; pool ids times the minimum deposit at most total reserved |
| Freshness.CountersStayBelowMaximum | pallets/sponsorship/src/lib.rs:499-500 | when ids outlast the issuance, neither counter sticks and both next ids are unused |
| Freshness.EveryIdIsPaidFor | pallets/sponsorship/src/lib.rs:309-534 | in every run of every configuration, overwriting or not, the reserved funds have paid the minimum deposit for each creation and at least 802 for each sponsorship |
| Freshness.MoneyBoundsIds | pallets/sponsorship/src/lib.rs:316-500 | an issuance that cannot pay for all ids means fewer creations and sponsorships than ids |
| Freshness.EveryRunConsistent | pallets/sponsorship/src/lib.rs:297-588 | with such an issuance at the end of a run, whatever was burnt or minted before, that state is consistent: reserved funds equal pool holdings owner by owner, the log audits the pools, ids have no gaps and the next ones are unused |
| Freshness.EveryDeployedRunConsistent | pallets/sponsorship/src/lib.rs:297-588 | the same from the issuance at genesis when nothing is minted |
| Freshness.EveryRunAudits | pallets/sponsorship/src/lib.rs:513-532 | with such an issuance, the audit of `PoolsAreAudited` |
| Counting.FewIdsNumberWithoutGaps | pallets/sponsorship/src/lib.rs:332-334 | up to the two id counts, pool and log keys are exactly the ids handed out, records name older existing pools, timestamps never decrease, the owner index is exact |
| Freshness.DeployedIdsOutlastMoney | node/src/chain_spec.rs:187 | the endowment of twelve accounts and the minimum deposit of runtime/src/lib.rs:605 meet that bound |
| Freshness.EveryRunCountsAndExtends | pallets/sponsorship/src/lib.rs:526-532 | with an issuance that ids outlast the counters count every creation and sponsorship, and everything ever recorded stands |
| Overwriting.CreateConservesIff | pallets/sponsorship/src/lib.rs:315-334 | creation keeps conservation if and only if the next pool id is unused or its pool held nothing |
| Overwriting.CreateAuditsIff | pallets/sponsorship/src/lib.rs:322-332 | creation keeps the audit if and only if the next pool id is unused or its pool had spent nothing |
| Overwriting.SponsorAuditsIff | pallets/sponsorship/src/lib.rs:499-532 | a sponsorship keeps the audit if and only if the next transaction id is unused |
| Counting.RunRecords | pallets/sponsorship/src/lib.rs:315-527 | in every run of every configuration the ids in use are the first ones, as many as records were inserted and ids exist, and every record is worth at least the minimum |
| Counting.EveryLogIntact | pallets/sponsorship/src/lib.rs:513-527 | in every run of every configuration each record carries its key, is pending, costs a fee in the band and names a supported chain and an existing pool, and timestamps never decrease |
| Counting.EveryRunExtends | pallets/sponsorship/src/lib.rs:315-532 | in every run of every configuration, owners, birth blocks and log records below their counter stand from then on, spending grows, index and events are only added to |
| Counting.FewIdsKeepConsistent | pallets/sponsorship/src/lib.rs:297-588 | with at most 2^32 creations and 2^64 sponsorships the full invariant holds, whatever deposit and issuance |
| Counting.FewIdsExtend | pallets/sponsorship/src/lib.rs:315-532 | under the same counts everything recorded at any point of a run stands to its end |
| Overwriting.NextLoses | pallets/sponsorship/src/lib.rs:319-334 | the exact law of every step: reserved funds without a pool grow by the overwritten holding and nothing else |
| Overwriting.ConservedIffNothingOverwritten | pallets/sponsorship/src/lib.rs:315-334 | over any run, conservation holds at the end if and only if no holding was overwritten |
| Overwriting.ConservedIffFewPools | pallets/sponsorship/src/lib.rs:315-334 | with a positive minimum deposit, if and only if at most 2^32 pools were created |
| Overwriting.RunUnlogsOn | pallets/sponsorship/src/lib.rs:322-532 | over any run, what a pool spent and no record shows is what overwritten records on it cost, less the spending overwritten under it |
| Overwriting.AuditedIffLossesCancel | pallets/sponsorship/src/lib.rs:322-532 | over any run, the log audits the pools at the end if and only if all overwritten records named the last pool id and their costs equal the spending overwritten under it |
| Overwriting.AuditedIffNoSpendingOverwritten | pallets/sponsorship/src/lib.rs:322-332 | while the transaction ids last, if and only if no pool that had spent was overwritten |
| Overwriting.AuditedIffFewTransactions | pallets/sponsorship/src/lib.rs:499-532 | while the pool ids last, if and only if at most 2^64 transactions were sponsored |
| Ownership.OwnersIndexedIffNoneReowned | pallets/sponsorship/src/lib.rs:333 | over any run, the owner index names exactly the owners if and only if no creation took over a pool of another owner; every owner is indexed, and only the last id can be wrong |
| Exhaustion.ManyCreations | pallets/sponsorship/src/lib.rs:315-334 | any number of creations that an account can afford succeeds and leaves exactly those pools |
| Exhaustion.CheapPoolsLoseMoney | pallets/sponsorship/src/lib.rs:316-332 | with affordable ids, 2^32 + 1 creations from genesis end with more reserved than the pools account for |
| Exhaustion.TakenOverPoolStaysIndexed | pallets/sponsorship/src/lib.rs:316-333 | 2^32 creations by one account and one by another leave the first indexed for a pool the second owns |
| Exhaustion.TakenOverPoolLosesSpending | pallets/sponsorship/src/lib.rs:316-332 | 2^32 creations, a sponsorship from the last pool and one more creation end with a log that no longer audits the pools |
| Exhaustion.CheapTransactionsLoseRecords | pallets/sponsorship/src/lib.rs:500-527 | with an affordable pool, 2^64 + 1 sponsorships from genesis end with spending the log does not show |
| Sponsoring.SponsorSucceedsIff | pallets/sponsorship/src/lib.rs:484-552 | success exactly for an active pool, an allowed and supported chain, 1 to 1024 bytes and a covering balance; then RPC quote, logged cost, message fee, tracker fee and charge are one number, and nothing is written but balance and spending of that pool, the record, the counter and the event; otherwise nothing changes |
| Sponsoring.UpdateDecidesChains | pallets/sponsorship/src/lib.rs:402-405 | after an accepted reconfiguration the new chain list decides what the pool sponsors |
| Sponsoring.SponsoringLeavesChains | pallets/sponsorship/src/lib.rs:530-532 | after a sponsorship whatever could be sponsored still can, if the balance covers it |
| Sponsoring.StepSpends | pallets/sponsorship/src/lib.rs:322-532 | any step sets a pool's balance to the deposit of a creation in its place, adds a funding, takes between 802 and 3248 for a sponsorship, or leaves it |
| Sponsoring.BudgetBoundsSponsorships | pallets/sponsorship/src/lib.rs:369-532 | over any run from any state in which no creation takes the pool's place, balance and fundings pay for all its sponsorships, at 802 to 3248 each |
| Sponsoring.UnfundedPoolRunsDry | pallets/sponsorship/src/lib.rs:503-532 | over any run without funding, for any pool below the counter in any configuration, balance / 802 falls by at least one with each sponsorship |
| Sponsoring.LastPoolRunsDryUntilReplaced | pallets/sponsorship/src/lib.rs:316-532 | the pool under the last id keeps to its budget until the next creation, which resets its balance to the new deposit |
| Replay.EventsRebuildState | pallets/sponsorship/src/lib.rs:337-550 | in every run of every configuration, replaying the events from nothing gives every pool's owner, balance and spending, every transaction and both counters, and every announced balance and id was true when emitted |
| Replay.ReaderKnows | pallets/sponsorship/src/lib.rs:337-550 | read entry by entry: owner, balance and spending of each pool, pool, user, chain and cost of each transaction, and the next ids |
| Replay.EffectPosts | pallets/sponsorship/src/lib.rs:337-550 | posting a call's event moves the replayed book as the call moved the storage |
| Replay.TruthfulBooksBalance | pallets/sponsorship/src/lib.rs:369-380 | in any truthful event stream balance plus spending is deposit plus fundings since the pool's creation |
| Replay.EveryPoolBalances | pallets/sponsorship/src/lib.rs:322-532 | in every run of every configuration balance plus spending is the pool's deposit plus its fundings |
| Replay.PoolsAreAudited | pallets/sponsorship/src/lib.rs:513-532 | up to the two id counts spending is the log's sum on the pool and balance is all payments ever announced minus that sum |
| Footprint.CallFootprint | pallets/sponsorship/src/lib.rs:297-588 | a call writes at most one pool, only the caller pays, and pays exactly the named amount |
| Footprint.ErrorsMean | pallets/sponsorship/src/lib.rs:306-585 | each error is answered exactly in the cases it names, in the order of the checks |
| Footprint.CreateSucceedsIff | pallets/sponsorship/src/lib.rs:301-344 | success exactly for a signed, sufficient, reservable deposit; the new pool holds it under the given configuration from the current block, and only index, counter and event are written besides |
| Footprint.FundSucceedsIff | pallets/sponsorship/src/lib.rs:349-383 | success exactly for the signed owner of an active pool with a reservable amount; only that balance grows, by the amount |
| Footprint.UpdateSucceedsIff | pallets/sponsorship/src/lib.rs:388-414 | success exactly for the signed owner; the pool has the new configuration and keeps all other fields |
| Footprint.RuleCallsSucceedIff | pallets/sponsorship/src/lib.rs:419-470 | success exactly for the signed owner; the rule is filed under its type or the type's rule removed, and no other rule changes |
| Provenance.PoolsHoldLastWrites | pallets/sponsorship/src/lib.rs:322-405 | after any run a pool's configuration is that of its last accepted update, or else of its creation, and owner, birth block and status are those of its creation |
| Provenance.RulesHoldLastWrites | pallets/sponsorship/src/lib.rs:434-462 | after any run a pool has a rule of a type exactly if its owner's last word on that type filed it |
| Provenance.RecordsHoldLastWrites | pallets/sponsorship/src/lib.rs:513-527 | after any run a log record is that of the last sponsorship under its id, with its sender, pool, chain, call hash, quoted fee and block |
| Provenance.IndexedIffCreated | pallets/sponsorship/src/lib.rs:333 | an account is indexed for a pool id if and only if it created a pool under it |
| Provenance.EverythingHasASource | pallets/sponsorship/src/lib.rs:322-527 | every configuration and every log record of a run from genesis goes back to an accepted call and to no later one |
| Footprint.ReceiptAcceptedIff | pallets/sponsorship/src/xcm_gateway.rs:1037-1053 | a receipt is accepted exactly when id, chain and block hash are nonzero, so for logged transactions exactly when the id is not zero, and never moves the ledger |
| Queries.PoolsByOwner | pallets/sponsorship/src/lib.rs:602-610 | the index loop returns exactly the existing pools under the owner's prefix, in order, and these are exactly the owner's pools if and only if the index has the owner for exactly those |
| Queries.ListingCovers | pallets/sponsorship/src/lib.rs:602-610 | with an index as in every run, the loop misses no pool of the owner and adds at most the pool under the last id |
| Queries.EveryListingExactIff | pallets/sponsorship/src/lib.rs:602-610 | in every run the loop is exact for every owner if and only if no creation took over a pool of another owner |
| Queries.TakenOverPoolStaysListed | pallets/sponsorship/src/lib.rs:602-610 | after the takeover the first account is listed a pool that the second owns |
| Queries.IndexAgreesWithFullScan | pallets/sponsorship/src/lib.rs:602-610 | an exact listing is a permutation of a full scan of the pool table |
| Queries.PoolHistory | pallets/sponsorship/src/lib.rs:613-630 | the loop returns min(max(limit, 1), matches) records, the k-th of them being the pool's record with exactly k before it in the iteration, and its counter never overflows |
| Queries.HistoryIsThePools | pallets/sponsorship/src/lib.rs:620-627 | so all are records of that pool from increasing positions, and below the limit none of the pool's records is missing |
| Queries.HistoryHonoursLimitIff | pallets/sponsorship/src/lib.rs:619-629 | the result is the first min(limit, matches) records exactly when the limit is positive or nothing matches |
| Queries.HistoryIsPrefixClosed | pallets/sponsorship/src/lib.rs:613-630 | a smaller limit returns a prefix of the result for a larger one |
| Queries.UserSavings | pallets/sponsorship/src/lib.rs:633-644 | for any log and iteration order the saturating fold is the sum of what that user's executed records cost, capped once |
| Queries.SavingsWithinSpending | pallets/sponsorship/src/lib.rs:637-641 | for an audited log a user's savings never exceed what all pools have spent |
| Queries.ReachableSavingsAreZero | pallets/sponsorship/src/xcm_gateway.rs:483-495 | status updates only log, so in every run of every configuration savings are zero |
| Gateway.DeliverableFee | pallets/sponsorship/src/xcm_gateway.rs:205-233 | a deliverable call costs base plus two per byte, between 802 and 3248 |
| Gateway.FeeIsLinearIff | pallets/sponsorship/src/xcm_gateway.rs:229-233 | the fee is linear in the length exactly while the length fits 32 bits |
| Gateway.SendOutcome | pallets/sponsorship/src/xcm_gateway.rs:617-659 | the pipeline accepts exactly deliverable calls to supported chains, names the failing stage, and carries the RPC fee into message and tracker |
| Gateway.FeeBandIsTight | pallets/sponsorship/src/xcm_gateway.rs:217-232 | 802 and 3248 are charged, for one byte to Astar and 1024 bytes to Parallel, and no empty or longer call is deliverable |
| Gateway.RpcQuotes | pallets/sponsorship/src/lib.rs:647-658 | the quote is the charged fee for each of the four chains, and 1000 plus ten per byte elsewhere, with unreadable lengths as zero |
| Gateway.DispatchOutcome | pallets/sponsorship/src/xcm_gateway.rs:393-430 | the dispatcher takes exactly 1 to 1024 bytes to destinations from 2000 to 2100 and never reports its simulated failure |
| Backoff.DelayIsSaturatedDoublingIff | pallets/sponsorship/src/xcm_gateway.rs:574-577 | the delay is the saturated doubling exactly up to 31 retries and the plain doubling exactly up to 29 |
| Backoff.ReadyIff | pallets/sponsorship/src/xcm_gateway.rs:544-589 | the exact first block of readiness for every retry count, and acceptance of the first three |
| Backoff.BackoffIsMonotone | pallets/sponsorship/src/xcm_gateway.rs:580-589 | readiness is monotone in the block for every count, and a later delay is no shorter exactly below the wrap or beyond it |
| Backoff.RetriesAreBoundedAndSpaced | pallets/sponsorship/src/xcm_gateway.rs:544-589 | any visits to an entry retry it at most three times, the k-th no earlier than start + 5 * (2^k - 1) |
| Backoff.ScheduleIsTight | pallets/sponsorship/src/xcm_gateway.rs:538-589 | the three retries happen at exactly those earliest blocks, and a fourth never |
| SavingsTable.Database.UpdateUserGasSavings | docker/postgres/init.sql:89-102 | the trigger's upsert credits the row or fails on a column overflow |
| SavingsTable.Database.InsertTransaction | docker/postgres/init.sql:105-110 | insert and trigger are one unit: a taken id or an overflow changes neither table |
| SavingsTable.PostIsRecordedIff | docker/postgres/init.sql:8-110 | a post is recorded exactly if admitted, new and within its columns; it then adds its row, and an executed one adds its cost and one to its user's row and dates it; nothing else changes |
| SavingsTable.RunningTotalIsTheFold | docker/postgres/init.sql:89-110 | after any posts, total and count are the baseline plus the fold over executed rows recorded since, and the last moment is that of the last such row |
| SavingsTable.EachIdCountsOnce | docker/postgres/init.sql:10 | recorded ids are distinct and new, and the history is the old rows plus the recorded ones |
| SavingsTable.RepostIsIgnored | backend/api/server.js:180-185 | posting a recorded id again changes nothing, whatever its content |
| ApiServer.Server.Play | backend/api/server.js:131-200 | any interleaving of the handlers' segments on the server object is a run of the model |
| ApiServer.Server.AnswersAreBehind | backend/api/server.js:135-158 | every row the server has answered was in the table earlier, and without negative costs no answered total exceeds the database's current one |
| ApiServer.Server.CacheIsRightOrExcused | backend/api/server.js:143-188 | an entry of the server's cache agrees with the database or has one of the three excuses |
| SavingsApi.RowsComeFromTheTable | backend/api/server.js:131-163 | under every interleaving a row cached, in flight or served is what the table held when a query read it |
| SavingsApi.ServedTotalsAreBehind | backend/api/server.js:135-158 | with nonnegative costs every served total was in the table earlier and is at most the current one |
| SavingsApi.EntryIsStaleIff | backend/api/server.js:135-188 | a cache entry differs from the table exactly when an executed transaction of the user was recorded after its read |
| SavingsApi.StaleEntriesAreExcused | backend/api/server.js:180-188 | then a POST is between insert and delete, or one died before its delete, or a delete came after the read |
| SavingsApi.RaceLeavesStaleEntry | backend/api/server.js:143-188 | the interleaving that leaves a stale entry with all handlers finished and no failure |
| SavingsApi.AnswersItsRequest | backend/api/server.js:133-158 | under every interleaving the answer to a request is a response for the user the request arrived with |
| SavingsApi.EveryAnswerHasItsRequest | backend/api/server.js:131-158 | every answer goes back to a request, and gives its user a row the table held for that user |
| SavingsApi.StepCaches | backend/api/server.js:137-188 | a cache entry changes only by a store for its user, a delete for its user, or expiry |
| SavingsApi.GetServesOnce | backend/api/server.js:131-158 | an uninterrupted GET sends exactly one response, the cached row if there is one and else the table's, which it caches |
| SavingsApi.GetServesTheTable | backend/api/server.js:131-158 | from a cache that agrees with the table it answers the user's row, or zeros for a user without one |
| SavingsApi.PostInsertsAndClears | backend/api/server.js:180-188 | an uninterrupted POST inserts and removes its user's cache entry and no other, or does nothing |
| SavingsApi.SequentialHandlersStayCoherent | backend/api/server.js:131-200 | with handlers run one at a time and deletes succeeding, cache and table agree after every request |
| Retry.Retry | sdk/src/utils.ts:65-92 | calls up to the first success or the last allowed attempt, returns it or throws the last error, sleeps once between calls for base * (2^(k-1) - 1) in all; without attempts it throws the initial error |
| Debounce.Debounced.Invoke | sdk/src/utils.ts:149-152 | a call replaces the one pending timer |
| Debounce.Debounced.Play | sdk/src/utils.ts:143-153 | over any history of calls exactly the settled calls fire, at their time plus the wait with their arguments |
| Debounce.FiresIffSettled | sdk/src/utils.ts:149-152 | a firing occurs if and only if its call is not followed by another within the wait |
| Debounce.WhatFires | sdk/src/utils.ts:149-152 | spelled out: a call fires, at its time plus the wait with its arguments, exactly if the next call comes later than that or at that moment after the timer |
| Debounce.FiringsAreSpaced | sdk/src/utils.ts:149-152 | firings come in order and at least the wait apart |
| DemoHistory.History.AddTransactionToHistory | sdk/src/demo-sdk.ts:579-589 | the new list is the newest hundred of the entry before the old list |
| DemoHistory.History.QuickSponsor | sdk/src/demo-sdk.ts:331-343 | a sponsored transaction is counted and recorded, and history and counter stay what the operations since the last reset make them |
| DemoHistory.History.TransactionCompleted | sdk/src/demo-sdk.ts:519-530 | an announced transaction is recorded and not counted |
| DemoHistory.History.GasSavingsUpdated | sdk/src/demo-sdk.ts:511-512 | an announced total replaces the counter unless it is zero |
| DemoHistory.History.ResetDemo | sdk/src/demo-sdk.ts:438-444 | history and counter start over, whatever they had reached |
| DemoHistory.CounterInClosedForm | sdk/src/demo-sdk.ts:331-343 | the counter is the last nonzero total announced since the last reset plus everything sponsored and polled after it |
| DemoHistory.CounterSumsTheUncutHistoryIff | sdk/src/demo-sdk.ts:331-343 | it equals the sum over everything recorded since the last reset, beyond the stored hundred, exactly when that total and the polled amounts make up for what was recorded before the total and announced since |
| DemoHistory.History.GetTransactionHistory | sdk/src/demo-sdk.ts:594-612 | the newest min(limit, 100) entries, and what a negative limit slices to |
| DemoHistory.History.WeeklyTotal | sdk/src/demo-sdk.ts:640-648 | the weekly figure is the sum of what the stored entries of the last 604800000 milliseconds saved |
| DemoHistory.WindowSumIsTheSum | sdk/src/demo-sdk.ts:645-648 | the fold over any list is the sum of savings over the positions in the window |
| DemoHistory.UncutHistoryIs | sdk/src/demo-sdk.ts:438-589 | everything recorded since the last reset, each entry at the place given by the number recorded after it |
| DemoHistory.CutWindowSum | sdk/src/demo-sdk.ts:582-648 | cutting never overstates a window and is exact when, and for positive savings only when, at most a hundred entries fall in it |
| DemoHistory.WeeklyFigureIsHonest | sdk/src/demo-sdk.ts:579-648 | after any additions and resets at nondecreasing times the weekly figure is at most the true one, and equal with at most a hundred entries in the week |

## Left out

- FRAME macros, weights, storage encoding and hashing; `UserSpending`, which no code writes.
- Authorization, transaction limits and daily limits: the code marks the checks as still to do (pallets/sponsorship/src/lib.rs:495-496). Pool and rule count limits are never read. No call leaves the status `Active`.
- The retry queue (pallets/sponsorship/src/xcm_gateway.rs:592-607): its list of candidates is always empty. Delivery time estimates, the per-chain call checks that accept everything, and the unused balance and notification helpers.
- Receipt settlement, refunds and status changes: these functions only log (pallets/sponsorship/src/xcm_gateway.rs:483-495 and 1000-1067).
- Event storage: the model keeps the stream of emitted events; the system pallet drops events of block zero and clears them every block.
- Replay.EventsRebuildState: configurations and rule contents are not in the events, so the replay does not rebuild them.
- Backoff.ScheduleIsTight: like the next line, about an entry the code does not keep.
- Backoff.RetriesAreBoundedAndSpaced: the code keeps no retry entries (pallets/sponsorship/src/xcm_gateway.rs:497-504); the statement is about an entry that advances both fields on each accepted retry. The constant retry counts at lines 682 and 976 are not such an entry.
- Freshness.EveryRunConsistent: assumes an issuance that cannot pay for all ids; `FewIdsKeepConsistent` is the form without that assumption.
- Slashing, unreserving or repatriating the pallet's reserved funds by other pallets: reserved balances change by this pallet's calls alone.
- SavingsTable.Database.InsertTransaction: the other columns, their length limits and lost connections are one parameter, `admitted`.
- The row's `updated_at`, generated keys, and the order of concurrent inserts inside the database: each insert with its trigger is one step.
- Listing, analytics, health, mail and logging endpoints of the API; expiry is a step that may drop an entry at any time.
- Debounce.Debounced.Play: the platform's rounding of waits below one millisecond or above 2^31 - 1 is not modelled.
- Retry.Retry: attempts and delays are integers; rounding of very large delays is not modelled.
- DemoHistory.History.WeeklyTotal: amounts are integers; the trend, the daily average and the formatted fields, which divide or format floating-point numbers, are not modelled. The amount `quickSponsor` adds is a parameter; the code passes the cumulative figure of the RPC there (sdk/src/demo-sdk.ts:298 and 332).
- Listener registration and event emission in the SDK, wallet and node connections, mock fallbacks, React hooks.
- Frontend, node service, command line, benchmarks, mock parachain, demo scripts and container setup.
