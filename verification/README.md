# Verification of the bonding curves, the event pipeline and two API state machines

A Dafny model of three parts of the repository, and proofs about all their inputs and all their runs:

* **Bonding curves** (`crates/curves`): 256-bit fixed-point quotes with mixed floor and ceiling rounding
  on the quadratic and the proportional curve, the fees on top, and runs of deposits, mints, withdrawals
  and redemptions.
* **The event-log pipeline** (`crates/rindexer-ingestion`, `crates/projections`): the dual write of every
  log, the two readers, sharded projections with checkpoints, and the derived position, vault and funnel
  tables.
* **Two state machines of the query API** (`services/api`): the fixed-window rate limiter and the escaping
  of search text for LIKE.

`dafny verify dfyconfig.toml` checks the whole project.

## How the model is laid out

Code made of expressions is modelled by functions. Code that changes state is a class whose methods are
proved equal to a function of the old state; the properties are lemmas about those functions.

| files | what they hold |
|---|---|
| `Wrappers`, `Bytes`, `Rounding` | options and results; base-256 numbers; floor, ceiling and square-root division as adjoints |
| `CurveMath`, `ByteCodec` | `math.rs`: checked arithmetic on U256 and the 32-byte conversion |
| `QuadraticLaws`, `OffsetProgressive`, `ProgressiveQuotes`, `VaultRun`, `CurveWitnesses` | the quadratic curve: the inequality behind each quote, the quotes, their laws, whole runs, and concrete states for what is false |
| `LinearCurve`, `FeeQuotes` | the proportional curve and its runs; all fee quotes on either curve |
| `Events`, `DualWrite`, `Readers` | logs and rows; ingestion into two tables; the two batch queries |
| `ShardKey`, `KgMarket`, `Projections`, `Ledger`, `Checkpoint` | shard keys; the `market` tables; the two projections that write them; what the tables add up to; crash and replay |
| `Funnel`, `Position` | the funnel jobs; the position table |
| `RateLimit`, `LikePattern` | the two API state machines |

U256 is a natural number up to 2^256 - 1 and every overflow is an explicit error result. `UNIT` is 10^18,
`Area(UNIT, s)` is `square(s)`, that is floor(s * s / UNIT), and `AreaUp` its ceiling. A curve is `Built`
when it is a result of `new`. SQL tables are maps or sequences, a statement is a function on them, and a
worker is a sequence of steps.

## What the proofs brought to light

* The withdraw quote of the quadratic curve can ask for more shares than exist (`WithdrawBeyondSupply`);
  `WithdrawWithinSupply` gives the exact condition under which it does not.
* Withdraw and redeem are not quite adjoint on that curve: `OverBurns` is the one exception, and
  withdrawing nothing can burn a share (`WithdrawNothingBurnsAShare`).
* With a protocol fee and an exit fee, splitting a redemption can gain one unit after fees
  (`SplittingARedemptionCanPay`), never more; `FeeQuotes.RedeemSplit` says exactly when.
* On the proportional curve burning the last share forgets the ratio of assets to shares. Some run lowers it
  exactly if a share was worth more than one asset (`RatioNeverFalls`).
* A sliding minute admits up to 2L - 1 calls, and that many do get through (`SlidingBoundIsReached`).
* The two readers disagree on the entity of protocol fees, and on that of redemptions whose sender is not
  the receiver: the generated column of `event_store` is NULL, or the sender, where the typed query has
  the sender, or the receiver. They also disagree on `ingested_at`. The comment that projections see the
  same shape (`crates/projections/src/event/typed_reader.rs:3-7`) holds for the remaining fields
  (`TwinsReadAlike`).
* An event type named twice, with rows to read, makes the typed reader return rows twice; the readers agree
  at every limit exactly when no such type is repeated (`ReadersAgreeExactly`).
* A name list with only unknown event types makes the typed reader send an ORDER BY without a SELECT.
* When the node reports no timestamp the handler uses its clock; a log that is delivered again then is
  stored a second time, and four of the seven typed tables do not get the second row (`RestampedLog`, `TypedRowsOverRuns`).
* A vault row made by a price event can show no holders although there are some (`PriceRowLagsBehind`):
  exactly until its owner passes a deposit or redemption of the vault, or the holders index does
  (`HolderCountIsExact`).
* A row whose sequence number becomes visible after a larger one was checkpointed is never applied
  (`LateRowIsMissed`, `MissedForGood`); sequence numbers are given out before commit. Rows are skipped exactly
  when the checkpoint passes one that was not read (`NothingIsSkippedExactly`); above the checkpoint rows may
  appear in any order.
* The shard key drops the scale of a curve id while the row key keeps it, so equal ids written with
  different scales land on one shard, and in two rows if the scales are not negative (`TwoScalesTwoRows`). Ingestion writes every id as an
  integer without a scale (`crates/rindexer-ingestion/src/handlers.rs:500-548`), so it does not produce them.
* If the first event of a vault is a redemption, its assets are added to one flow column and not taken
  from the other (`FlowsAddUp`).
* A funnel job that has run before can leave two rows for a step (`LateRowAddsAStep`); it stays equal to a
  single run exactly while no row arrives that displaces a recorded one (`IncrementalIsBatchExactly`).
* `realized_pnl` depends on the order of events (`SwapChangesProfit`), unlike the other position columns.

## Model

| member | source | states |
|---|---|---|
| Rounding.FloorIff | crates/curves/src/math.rs:40-47 | the floor quotient is the right adjoint of multiplication: q is at most it exactly when q times the divisor is at most the dividend |
| Rounding.CeilIff | crates/curves/src/math.rs:49-60 | the rounded-up quotient is the left adjoint of multiplication |
| Rounding.SqrtIff | crates/curves/src/math.rs:62-64 | t is at most the integer square root exactly when t squared is at most the number |
| ByteCodec.WordRange | crates/curves/src/math.rs:12-14 | the bound is 2^256 - 1, one less than 256 to the 32 |
| ByteCodec.ToBigIsValue | crates/curves/src/math.rs:16-18 | reading the 32 big-endian bytes of a word gives the word back |
| ByteCodec.PadToWord | crates/curves/src/math.rs:25-28 | copying the minimal bytes to the end of the zeroed buffer stays in bounds and leaves exactly the word's 32 bytes |
| ByteCodec.FromBigBytes | crates/curves/src/math.rs:20-30 | the byte path returns the value, or MathOverflow above 2^256 - 1 |
| ByteCodec.BytesOfValue | crates/curves/src/math.rs:16-30 | bytes to number to bytes is the identity at every width |
| OffsetProgressive.NewOutcome | crates/curves/src/offset_progressive.rs:20-46 | every outcome of the constructor: which slopes and offsets are refused and why, and the exact bounds of every other curve; it reaches up to the largest number whose fixed-point square is a word |
| OffsetProgressive.BuiltFacts | crates/curves/src/offset_progressive.rs:20-46 | the bounds of a curve that was constructed, in the form the other laws use |
| QuadraticLaws.DepositIff | crates/curves/src/offset_progressive.rs:73-75 | the total after a deposit reaches t exactly when the area of t, rounded up, is at most the area bought |
| QuadraticLaws.WithdrawIff | crates/curves/src/offset_progressive.rs:140-143 | the same for the total that a withdrawal leaves |
| ProgressiveQuotes.DepositOutcome | crates/curves/src/offset_progressive.rs:60-79 | every result of a deposit quote: no MathOverflow, no DivisionByZero, MathUnderflow exactly when a * UNIT < half slope and the square of the total is inexact |
| ProgressiveQuotes.MintOutcome | crates/curves/src/offset_progressive.rs:114-129 | every result of a mint quote, with the exact cause of each error |
| ProgressiveQuotes.WithdrawOutcome | crates/curves/src/offset_progressive.rs:131-144 | every result of a withdraw quote; it underflows exactly when the area is too small |
| ProgressiveQuotes.RedeemUnfolds | crates/curves/src/offset_progressive.rs:81-98 | inside the domain and the supply a redeem quote is the curve's payment and can fail only by overflow |
| ProgressiveQuotes.RedeemOutcome | crates/curves/src/offset_progressive.rs:81-98 | every result of a redeem quote, with the exact cause of each error |
| ProgressiveQuotes.PriceOutcome | crates/curves/src/offset_progressive.rs:158-167 | every result of the price: the slope at the current total, rounded down to a unit of 10^18 |
| ProgressiveQuotes.DepositMintAdjoint | crates/curves/src/offset_progressive.rs:114-129 | mint(n) is at most a exactly when n is at most deposit(a), whenever both succeed |
| ProgressiveQuotes.MintOfDeposit | crates/curves/src/offset_progressive.rs:110-129 | the shares of a successful deposit can be quoted as a mint, for no more than the deposit |
| ProgressiveQuotes.WithdrawRedeemExact | crates/curves/src/offset_progressive.rs:131-148 | redeem(n) is at least a exactly when n is at least withdraw(a) or OverBurns holds; so redeem(withdraw(a)) is at least a |
| ProgressiveQuotes.WithdrawWithinSupply | crates/curves/src/offset_progressive.rs:131-144 | a withdraw quote stays within the supply exactly when the area above the offset covers it |
| ProgressiveQuotes.DepositMono | crates/curves/src/offset_progressive.rs:60-79 | a larger deposit issues at least as many shares |
| ProgressiveQuotes.DepositBetween | crates/curves/src/offset_progressive.rs:60-79 | between two amounts that can be deposited every amount can be |
| ProgressiveQuotes.DepositPriceBound | crates/curves/src/offset_progressive.rs:158-167 | deposit(a) * current_price is at most a * UNIT |
| ProgressiveQuotes.DepositThenRedeem | crates/curves/src/offset_progressive.rs:60-98 | redeeming what a deposit issued succeeds, returns no more than the deposit, and loses less than the rounding at the new total allows |
| ProgressiveQuotes.DepositSplit | crates/curves/src/offset_progressive.rs:60-79 | two deposits in a row issue no more shares than one of the sum |
| ProgressiveQuotes.RedeemSplit | crates/curves/src/offset_progressive.rs:81-98 | two redemptions in a row pay no more than one, and at most one unit less |
| VaultRun.StepKeepsSurplus | crates/curves/src/offset_progressive.rs:60-148 | no operation lowers total_assets * UNIT - half_slope * area |
| VaultRun.RunKeepsSurplus | crates/curves/src/offset_progressive.rs:60-148 | nor does any run of operations |
| VaultRun.NoProfitableCycle | crates/curves/src/offset_progressive.rs:60-148 | a run that ends with at least the shares it began with ends with at least the assets |
| VaultRun.SolventPays | crates/curves/src/offset_progressive.rs:81-98 | a solvent vault answers every redemption within its supply and has the assets for it |
| VaultRun.EveryReachableVaultPays | crates/curves/src/offset_progressive.rs:60-148 | after any run from the empty vault, any part of the supply can be redeemed and paid |
| CurveWitnesses.ThereAndBack | crates/curves/src/offset_progressive.rs:101-148 | a built curve and a run from the empty vault back to it in which each of the four operations succeeds |
| CurveWitnesses.WithdrawBeyondSupply | crates/curves/src/offset_progressive.rs:131-144 | a built curve and a state in which the withdraw quote is twice the supply |
| CurveWitnesses.WithdrawNothingBurnsAShare | crates/curves/src/offset_progressive.rs:131-144 | a built curve on which withdrawing nothing costs a share |
| CurveWitnesses.SplittingARedemptionCanPay | crates/curves/src/fees.rs:120-151 | a curve and fees at which two redemptions pay one unit more after fees than one |
| LinearCurve.DepositOutcome | crates/curves/src/linear.rs:43-54 | every result of a deposit quote, with the exact cause of each error |
| LinearCurve.MintOutcome | crates/curves/src/linear.rs:56-71 | every result of a mint quote: nothing limits it but the word |
| LinearCurve.WithdrawOutcome | crates/curves/src/linear.rs:73-86 | every result of a withdraw quote, in an empty vault and in one without assets too |
| LinearCurve.RedeemOutcome | crates/curves/src/linear.rs:88-97 | every result of a redeem quote |
| LinearCurve.PriceOutcome | crates/curves/src/linear.rs:114-122 | the price is par in an empty vault and otherwise the ratio rounded down to a unit of 10^18 |
| LinearCurve.DepositMintAdjoint | crates/curves/src/linear.rs:43-71 | deposit and mint are exact adjoints, empty vault included |
| LinearCurve.WithdrawRedeemAdjoint | crates/curves/src/linear.rs:73-97 | redeem(n) is at least a exactly when n is at least withdraw(a) |
| LinearCurve.PaysWithinMeans | crates/curves/src/linear.rs:73-97 | redemptions within the supply succeed and pay within the assets, withdrawals the other way round |
| LinearCurve.DepositMono | crates/curves/src/linear.rs:43-54 | whatever can be deposited, less can be, for no more shares |
| LinearCurve.DepositPriceBound | crates/curves/src/linear.rs:114-122 | deposit(a) * current_price is at most a * UNIT |
| LinearCurve.DepositSplit | crates/curves/src/linear.rs:43-54 | two deposits in a row issue no more shares than one |
| LinearCurve.RedeemSplit | crates/curves/src/linear.rs:88-97 | two redemptions in a row pay no more than one, and at most one unit less |
| LinearCurve.StepKeepsRatio | crates/curves/src/linear.rs:17-97 | with shares in issue no operation lowers the exact ratio of assets to shares |
| LinearCurve.RunKeepsRatio | crates/curves/src/linear.rs:17-97 | nor does any run that has shares in issue before every step |
| LinearCurve.RatioForgottenWhenEmpty | crates/curves/src/linear.rs:17-23 | from every vault whose shares are worth more than one asset each, burning all of them and starting again lowers it |
| LinearCurve.RatioNeverFalls | crates/curves/src/linear.rs:17-97 | with shares in issue, no run whatever lowers the ratio exactly when a share is worth at most one asset |
| LinearCurve.RunKeepsBacked | crates/curves/src/linear.rs:17-97 | from the empty vault on, a share is worth at least one asset after every run, however often the vault runs empty |
| FeeQuotes.PreviewDepositWithFees | crates/curves/src/fees.rs:86-117 | assets after fees plus the total of the fees are the assets before, and the shares are the curve's for what is left |
| FeeQuotes.PreviewRedeemWithFees | crates/curves/src/fees.rs:120-151 | the same for a redemption, on what the curve pays |
| FeeQuotes.PreviewAtomDeposit | crates/curves/src/fees.rs:163-198 | the same with the atom wallet fee |
| FeeQuotes.PreviewTripleDeposit | crates/curves/src/fees.rs:210-250 | the same with the atom deposit fraction |
| FeeQuotes.DepositOutcome | crates/curves/src/fees.rs:86-250 | every outcome of a deposit quote: it answers exactly when there is a denominator, the fees fit the amount and the curve answers for the rest |
| FeeQuotes.RedeemOutcome | crates/curves/src/fees.rs:120-151 | every outcome of a redemption quote, which asks the curve first |
| FeeQuotes.TotalOutcome | crates/curves/src/fees.rs:43-58 | the total is the sum of the five fees, or an overflow |
| FeeQuotes.DepositFeesAreLeast | crates/curves/src/fees.rs:86-250 | every component of a deposit quote is the least whole fee at its own rate; what is not charged is zero |
| FeeQuotes.RedeemFeesAreLeast | crates/curves/src/fees.rs:120-151 | so is every component of a redemption quote |
| FeeQuotes.DepositSplit | crates/curves/src/fees.rs:86-250 | two deposits issue no more shares than one, on either curve, for every kind of deposit and every schedule |
| FeeQuotes.RedeemSplit | crates/curves/src/fees.rs:120-151 | two redemptions gain at most one unit after fees, and they gain it exactly when the split costs one unit before fees and lowers both fees by one |
| Events.TwinsReadAlike | crates/projections/src/event/typed_reader.rs:39-173 | the twin rows of a log read as the same event in both readers; the entity agrees exactly for the logs listed in SameEntity, the ingestion time exactly when it is the block time |
| DualWrite.FetchIsAligned | crates/rindexer-ingestion/src/storage.rs:252-289 | as many numbers come back as keys go in exactly when every key is stored and canonical, and then they correspond position by position |
| DualWrite.FetchAfterStore | crates/rindexer-ingestion/src/storage.rs:328-336 | which is so right after the generic insert |
| DualWrite.BatchIsLogByLog | crates/rindexer-ingestion/src/storage.rs:555-639 | the three passes of a dual write leave the tables that storing each log with its typed row in turn leaves |
| DualWrite.WriteAppend | crates/rindexer-ingestion/src/handlers.rs:176-235 | so it does not matter how logs are grouped into batches |
| DualWrite.RunKeepsNumbered | crates/rindexer-ingestion/src/storage.rs:555-639 | over every run of commits, replays and rollbacks: distinct numbers below the counter, and every typed row carries the number of the generic row with its transaction, index and timestamp |
| DualWrite.NewLog | crates/rindexer-ingestion/src/storage.rs:316-387 | a new log gets twin rows with the next number, and the time of its ingestion |
| DualWrite.NumbersStartAtOne | crates/projections/src/resilience/checkpoint.rs:24-24 | numbers start at 1, so that a reader that starts after 0 sees every row |
| DualWrite.RedeliveryIsInvisible | crates/rindexer-ingestion/src/storage.rs:219-231 | writing logs leaves both tables alone exactly when all are recorded; only the counter moves |
| DualWrite.ReplayOfACommittedBatch | crates/rindexer-ingestion/src/storage.rs:316-387 | anything once committed may come back later in any order and number without effect |
| DualWrite.RunKeepsFaithful | crates/rindexer-ingestion/src/storage.rs:316-387 | if all writes are of logs of one chain, generic and typed rows stay in step over every run |
| DualWrite.TypedRowHasTwin | crates/rindexer-ingestion/src/storage.rs:338-383 | then every typed row has a generic row with the same number, envelope, type and data |
| DualWrite.StoredRowHasTwin | crates/rindexer-ingestion/src/storage.rs:338-383 | and every generic row has such a typed row |
| DualWrite.RestampedLog | crates/rindexer-ingestion/src/handlers.rs:97-127 | a log that returns under a new timestamp is stored again, and has a typed row for it exactly in the tables keyed by the timestamp |
| DualWrite.TypedRowsOverRuns | crates/rindexer-ingestion/src/handlers.rs:97-127 | over every run of logs of one chain with any timestamps, all generic rows have typed rows exactly when no log of the four tables without the timestamp was committed under two |
| DualWrite.Storage.BulkInsertEventStore | crates/rindexer-ingestion/src/storage.rs:204-243 | the chunked insert is the insert of the whole batch, for any chunk size |
| DualWrite.Storage.FetchSequenceNumbers | crates/rindexer-ingestion/src/storage.rs:252-289 | the chunked join returns the numbers of the whole batch in input order |
| DualWrite.Storage.InsertTyped | crates/rindexer-ingestion/src/storage.rs:338-383 | the slices stay in bounds and the chunks together insert every row with its number |
| DualWrite.Storage.InsertEvents | crates/rindexer-ingestion/src/storage.rs:316-387 | one transaction writes the batch as if log by log |
| DualWrite.Storage.Handle | crates/rindexer-ingestion/src/handlers.rs:173-235 | the handler builds aligned records and writes all results, whatever the two chunk sizes; if the insert of a sub-batch fails it stops there, with the earlier ones committed and that one rolled back |
| Readers.OrderLimitMeaning | crates/projections/src/event/reader.rs:30-35 | ORDER BY with LIMIT: rows of the query, in order, as many as allowed, passing over none that comes earlier |
| Readers.PushDown | crates/projections/src/event/typed_reader.rs:192-201 | repeating the limit in every branch does not change the result |
| Readers.TypedReadIsOneQuery | crates/projections/src/event/typed_reader.rs:182-226 | the typed reader returns what one filter, sort and limit over all its tables returns, one branch or many |
| Readers.ReadersAgree | crates/projections/src/event/reader.rs:20-44 | for known types of which only those without rows to read are repeated both readers return the same batch, event by event |
| Readers.ReadersAgreeExactly | crates/projections/src/event/typed_reader.rs:182-226 | they do so at every limit exactly for such lists |
| Readers.ReadersAgreeAfterEveryRun | crates/projections/src/event/typed_reader.rs:207-226 | and they do after every run of ingestion on one chain |
| Readers.WhenTypedReadFails | crates/projections/src/event/typed_reader.rs:182-203 | the typed reader fails exactly for a non-empty list without known types, for which the other returns nothing |
| Readers.RepeatedNameReadsTwice | crates/projections/src/event/typed_reader.rs:196-201 | one type named twice, and nothing else, makes the typed reader return its first event twice |
| Readers.ReadsByName | crates/projections/src/event/typed_reader.rs:39-173 | reading one of the seven names, each reader has exactly the rows after the number whose log carries the columns of that name |
| Readers.OnlyCanonicalIsRead | crates/projections/src/event/reader.rs:31-33 | the monolithic reader returns only canonical rows after the number |
| ShardKey.WithScaleZeroIsExact | crates/projections/src/shard.rs:65-97 | the rescaled number is the number exactly for integers |
| ShardKey.SameKey | crates/projections/src/shard.rs:65-97 | two decimals have the same key exactly when they truncate alike; two integers exactly when they are equal, whatever their scales |
| ShardKey.SameNumberSameKey | crates/projections/src/shard.rs:26-32 | equal numbers have the same key, fractions included |
| ShardKey.TenthsAreDropped | crates/projections/src/shard.rs:46-51 | a number with one decimal has the key of its whole part |
| ShardKey.TenthsCount | crates/projections/src/shard.rs:46-51 | from which it differs |
| ShardKey.SignIsLost | crates/projections/src/shard.rs:46-54 | a negative fraction has the key of zero |
| ShardKey.KeyTexts | crates/projections/src/shard.rs:46-54 | some keys spelled out: trailing zeros, an exponent, a negative fraction, zero, and all ten digits |
| ShardKey.OwnedByExactlyOne | crates/projections/src/shard.rs:107-122 | for any hash and any positive number of shards exactly one shard owns a vault |
| Projections.OwnedTogether | crates/projections/src/shard.rs:107-114 | two curve ids of a term are owned together under every hash and count exactly when they have the same key |
| Projections.TwoScalesTwoRows | crates/projections/src/projection/dual/vault_state.rs:123-131 | one number at two scales has one owner; at two scales that are not negative it has two row keys |
| KgMarket.KgMarketRepo.UpsertVaultOnDeposit | crates/projections/src/repo/kg_market_repo.rs:58-86 | adds to the deposits of one row, or creates it |
| KgMarket.KgMarketRepo.UpsertVaultOnRedeem | crates/projections/src/repo/kg_market_repo.rs:101-130 | moves assets from deposits to redemptions, or creates a row without deposits |
| KgMarket.KgMarketRepo.UpdateVaultPrice | crates/projections/src/repo/kg_market_repo.rs:144-180 | overwrites the four snapshot columns and no other |
| KgMarket.KgMarketRepo.UpsertPositionOnDeposit | crates/projections/src/repo/kg_market_repo.rs:195-223 | adds shares and deposits to one position |
| KgMarket.KgMarketRepo.DecrementPositionOnRedeem | crates/projections/src/repo/kg_market_repo.rs:239-265 | takes shares from an existing position and touches no other |
| KgMarket.KgMarketRepo.PruneZeroPositions | crates/projections/src/repo/kg_market_repo.rs:283-303 | deletes the position if it holds no shares and touches no other |
| KgMarket.KgMarketRepo.RefreshHolderCount | crates/projections/src/repo/kg_market_repo.rs:323-345 | stores the number of positions with shares, if the vault row exists |
| KgMarket.KgMarketRepo.InsertMarketEvent | crates/projections/src/repo/kg_market_repo.rs:389-524 | inserts the event's row unless its key is there |
| KgMarket.SameEventKey | crates/projections/src/repo/kg_market_repo.rs:389-407 | two events share a row exactly if time, transaction and log index are the same |
| Projections.VaultStateDualProjection.ProcessParsedBatch | crates/projections/src/projection/dual/vault_state.rs:171-306 | the loop with its set of touched vaults is the batch function the theorems are about |
| Projections.VaultHoldersIndexDualProjection.ProcessParsedBatch | crates/projections/src/projection/dual/vault_holders_index.rs:119-204 | likewise for positions |
| Projections.BatchByRow | crates/projections/src/projection/dual/vault_state.rs:199-295 | a batch changes a row by the owned events about that vault alone, and its count is refreshed if one of them moves shares |
| Projections.StepKeepsCourse | crates/projections/src/main.rs:279-293 | any worker's next batch keeps every row at one pass over its owner's part of the log |
| Projections.ShardedIsSequential | crates/projections/src/main.rs:279-293 | for every number of shards, hash, batching and interleaving, the drained vaults and positions are those of one sequential pass, and so are the rows of market.events, whose keys are distinct |
| Projections.HolderCountIsCurrent | crates/projections/src/projection/dual/vault_state.rs:187-195 | for serial transactions, the stored count is the current one in every reachable state, from the owner's first deposit or redemption of the vault on |
| Projections.HolderCountIsExact | crates/projections/src/repo/kg_market_repo.rs:323-345 | for serial transactions, the count of an existing row is current exactly when its owner has passed a deposit or redemption of the vault, or the holders index has since the row appeared, or nobody holds shares; otherwise it is 0 |
| Projections.PriceRowLagsBehind | crates/projections/src/repo/kg_market_repo.rs:154-167 | before that it can be 0 while there is a holder |
| Ledger.BalancedIffNoOverdraft | crates/projections/src/repo/kg_market_repo.rs:195-303 | all positions equal deposited minus redeemed shares at every moment exactly for logs without an overdraft |
| Ledger.SharesAreConserved | crates/projections/src/repo/kg_market_repo.rs:195-303 | then the positions of a vault sum to its deposited minus redeemed shares |
| Ledger.TotalsOfALife | crates/projections/src/repo/kg_market_repo.rs:195-303 | the two totals of a position are the sums since the account last held nothing |
| Ledger.HoldersAreLiveAccounts | crates/projections/src/repo/kg_market_repo.rs:323-345 | and the holders are the accounts with positive net shares |
| Ledger.HolderCountCountsAccounts | crates/projections/src/repo/kg_market_repo.rs:323-345 | so holder_count is their number, in every reachable state of the sharded fleet with serial transactions, once the owner has passed a deposit or redemption of the vault |
| Ledger.FlowsOfARow | crates/projections/src/repo/kg_market_repo.rs:58-130 | what the two flow columns hold after any events |
| Ledger.FlowsAddUp | crates/projections/src/repo/kg_market_repo.rs:101-130 | they add up to the deposits exactly when the first event of the vault does not redeem assets |
| Ledger.EventAmountsAreFlows | crates/projections/src/repo/kg_market_repo.rs:479-486 | once a fleet of any number of shards is through the log, SUM(amount) of market.events by term and direction is what the deposits, or redemptions, moved |
| Ledger.EventSharesAreFlows | crates/projections/src/repo/kg_market_repo.rs:389-471 | and SUM(shares) by term, account and direction is what the log moved for receivers and senders |
| Ledger.PriceRowShowsTheVault | crates/projections/src/repo/kg_market_repo.rs:473-524 | a price row shows the price and shares that the same event writes to its vault, and belongs to nobody |
| Checkpoint.CheckpointStore.GetCheckpoint | crates/projections/src/resilience/checkpoint.rs:14-25 | the saved number of this projection and sink, or 0 |
| Checkpoint.CheckpointStore.SaveCheckpoint | crates/projections/src/resilience/checkpoint.rs:27-52 | overwrites that row and no other |
| Checkpoint.PgWorker.Poll | crates/projections/src/worker/pg.rs:139-271 | one turn of the loop, with any number of retries after a commit of the first database alone, and with success, giving up or an unsaved checkpoint at the end, is the corresponding steps of the state machine |
| Checkpoint.FreshWorkerStarts | crates/projections/src/resilience/checkpoint.rs:14-25 | a worker over empty tables begins where the runs of the state machine begin |
| Checkpoint.ShardsHaveOwnCheckpoints | crates/projections/src/worker/pg.rs:103-111 | no two shards of a projection share a checkpoint |
| Checkpoint.ReplayIsInvisible | crates/projections/src/projection/dual/vault_state.rs:19-32 | applying a batch twice leaves the snapshots and the event rows as applying it once |
| Checkpoint.StepKeepsSafe | crates/projections/src/metrics.rs:170-174 | crash, retry, partial commit and save keep the tables resumable from the checkpoint |
| Checkpoint.RunKeepsSafe | crates/projections/src/worker/pg.rs:139-271 | so does every run in which rows appear in the order of their numbers |
| Checkpoint.NothingIsSkipped | crates/projections/src/resilience/checkpoint.rs:14-52 | in a run in which rows appear in the order of their numbers every event up to the checkpoint has its row |
| Checkpoint.PassingNoneKeepsAll | crates/projections/src/worker/pg.rs:139-271 | so it has in every run in which no step puts the checkpoint past a row not read |
| Checkpoint.NothingIsSkippedExactly | crates/projections/src/resilience/checkpoint.rs:14-52 | and in no other: over all runs with distinct rows nothing is skipped exactly when rows appear above the checkpoint and every save covers only rows of its own batch |
| Checkpoint.AtHeadIsOnePass | crates/projections/src/repo/kg_market_repo.rs:144-180 | if rows appear in the order of their numbers and the checkpoint is at the head, event rows and price snapshots are those of one pass over the log |
| Checkpoint.AtHeadIsOnePassExactly | crates/projections/src/repo/kg_market_repo.rs:144-180 | over all runs with distinct rows that end at the head, in whatever order rows appear, they are exactly when no step passed a row not read |
| Checkpoint.CatchesUp | crates/projections/src/worker/pg.rs:139-271 | turns without failure reach the head from any such state |
| Checkpoint.MissedForGood | crates/projections/src/event/reader.rs:30-35 | a row that the checkpoint passed before it was visible is never applied, whatever the worker does |
| Checkpoint.LateRowIsMissed | crates/projections/src/event/reader.rs:30-35 | and there is a run in which that happens |
| Funnel.SortMeaning | crates/projections/src/repo/funnel_repo.rs:40-40 | the ordering of the queries: the same rows, by time and number |
| Funnel.ComputeIsExact | crates/projections/src/repo/funnel_repo.rs:130-175 | a run of a job on a table with only expected rows leaves exactly the expected rows |
| Funnel.OnboardingRecords | crates/projections/src/repo/funnel_repo.rs:130-175 | onboarding records exactly the first atom of an account, and its first deposit from then on for 2 592 000 seconds |
| Funnel.ActivationRecords | crates/projections/src/repo/funnel_repo.rs:194-252 | activation records exactly the first deposit, and the first one later than it for 604 800 seconds |
| Funnel.CreatorRecords | crates/projections/src/repo/funnel_repo.rs:275-362 | creator records exactly the first atom, the first triple later than it for 7 776 000 seconds, and the fifth atom from the first on in that time |
| Funnel.BatchIffSound | crates/projections/src/repo/funnel_repo.rs:130-362 | a run equals a run on an empty table exactly when the table has nothing but expected rows, in whatever order rows came |
| Funnel.SoundAfter | crates/projections/src/repo/funnel_repo.rs:26-42 | a new row leaves the table right unless it displaces a record: it counts for the record's step and does not come after it; for distinct rows, exactly then |
| Funnel.IncrementalIsBatchExactly | crates/projections/src/repo/funnel_repo.rs:130-362 | over all runs with distinct rows, the job equals the batch at every moment exactly when no append displaces a record |
| Funnel.IncrementalIsBatch | crates/projections/src/repo/funnel_repo.rs:130-362 | if the rows of each account come in order, running a job leaves what one run on an empty table leaves, at every moment and however often it ran before |
| Funnel.OneRowAStep | crates/projections/src/repo/funnel_repo.rs:130-362 | while no append displaces a record, an account has at most one row for a step |
| Funnel.StepsInWindow | crates/projections/src/repo/funnel_repo.rs:130-362 | and a row of a later step comes with a step 0 of its account, inside the window after it |
| Funnel.LateRowAddsAStep | crates/projections/src/repo/funnel_repo.rs:199-212 | a row that comes in out of order leaves two rows of step 0 |
| Funnel.FunnelRepo.ComputeOnboardingFunnel | crates/projections/src/repo/funnel_repo.rs:130-175 | its two inserts are the onboarding job the theorems are about |
| Funnel.FunnelRepo.ComputeActivationFunnel | crates/projections/src/repo/funnel_repo.rs:194-252 | its two inserts are the activation job |
| Funnel.FunnelRepo.ComputeCreatorFunnel | crates/projections/src/repo/funnel_repo.rs:275-362 | its three inserts are the creator job |
| Position.PositionRepo.UpsertPositionOnDeposit | crates/projections/src/repo/position_repo.rs:56-94 | the new row of one position after a deposit |
| Position.PositionRepo.UpsertPositionOnRedeem | crates/projections/src/repo/position_repo.rs:142-176 | the new row of one position after a redemption |
| Position.OrderIndependent | crates/projections/src/repo/position_repo.rs:70-83 | every order of the same changes gives the same shares, totals and cost basis |
| Position.SwapChangesProfit | crates/projections/src/repo/position_repo.rs:142-176 | exchanging a redemption with the deposit after it, also as the first changes of an account, changes the profit by the redeemed shares times the change of the cost basis, and no other amount |
| Position.ProfitOfOrderlyAccount | crates/projections/src/repo/position_repo.rs:156-163 | with deposits before redemptions the profit is assets out minus deposits plus remaining shares at cost, exactly when shares were acquired or nothing was deposited |
| Position.ClosedHoldsNothing | crates/projections/src/repo/position_repo.rs:159-162 | a position with a closing time holds no shares |
| Position.ClosingTime | crates/projections/src/repo/position_repo.rs:156-163 | a position is closed exactly if its last change, and not its first, is a redemption that leaves no shares; it shows the time of that one |
| RateLimit.RateLimiter.Prune | services/api/src/rate-limit.ts:34-43 | removes the expired windows once the map is large, and only then |
| RateLimit.RateLimiter.CheckCall | services/api/src/rate-limit.ts:45-69 | the new windows and the decision of one call |
| RateLimit.PruningIsUnobservable | services/api/src/rate-limit.ts:34-43 | with a non-decreasing clock the decisions are those of a limiter that keeps all windows |
| RateLimit.WindowBound | services/api/src/rate-limit.ts:54-61 | at most L calls a key and window |
| RateLimit.SlidingBound | services/api/src/rate-limit.ts:45-69 | at most 2L - 1 calls in any 60 000 ms |
| RateLimit.SlidingBoundIsReached | services/api/src/rate-limit.ts:45-69 | and for every L a run in which they are allowed |
| RateLimit.RetryAfterIsExact | services/api/src/rate-limit.ts:62-68 | after a rejection the next call on the key is allowed exactly from the reset on; retryAfterSeconds is enough and one second less is not |
| RateLimit.WindowIsExact | services/api/src/rate-limit.ts:52-68 | a call without a live window opens one for 60 000 ms, in which exactly the first L calls on the key are allowed; each is told the limit, what remains and when the window ends |
| RateLimit.NextWindowOpens | services/api/src/rate-limit.ts:54-58 | and the first call on the key 60 000 ms later or more is allowed and opens the next |
| RateLimit.NoLimit | services/api/src/rate-limit.ts:48-50 | a limit of zero or less allows the call and counts nothing |
| RateLimit.PruningStarts | services/api/src/rate-limit.ts:34-43 | expired windows are dropped exactly from 10 000 windows on |
| LikePattern.ThreePassesAreOne | services/api/src/app.ts:51-53 | the three replaceAll passes are one substitution of each character |
| LikePattern.SearchFindsOccurrences | services/api/src/app.ts:287-289 | the pattern matches a text exactly when the query occurs in it, up to case |
| LikePattern.SearchPatternIsWellFormed | services/api/src/app.ts:287-289 | no query makes the pattern end in a lone escape |
| LikePattern.MetacharactersAreLiteral | services/api/src/app.ts:51-53 | the patterns for a percent sign, an underscore, a backslash and a letter, spelled out |
| LikePattern.OrderOfPassesMatters | services/api/src/app.ts:51-53 | escaping the backslash last would match the wrong texts |

## Left out

- Database connections, isolation levels, locks and deadlocks: a transaction is one step, and only table contents and conflict rules are modelled. Overlapping transactions are not: `vault_state:dual` can create a vault row and count while the holders index has uncommitted positions, whose own refresh then updates no row; a count of 0 stays although both have passed the deposit.
- Projections.HolderCountIsExact: is about serial transactions, for that reason.
- Columns set by NOW(): left out, except `ingested_at`, which is a parameter that is the same for one handler call.
- JSON parsing and its failures, `market_cap` overflow, dead letters, circuit breakers and retry timing: a batch applies or fails as a whole.
- The hash function: any function of the two texts.
- Projections.TwoScalesTwoRows: says nothing about the row of an id with a negative scale, because how the decimal library prints one is not part of this model; `KgMarket.VaultKey` stands for ids without.
- DualWrite.RunKeepsFaithful: assumes that a transaction and log index always come with the same timestamp and contents, which the clock fallback of the handler can break; `RestampedLog` says what happens then.
- Readers.ReadersAgree: does not claim the entity, on which the readers differ, nor `ingested_at`.
- Projections.ShardedIsSequential: is about workers that apply each batch once; batches applied again after a crash add to the flow columns a second time, so replay is treated in `Checkpoint` for overwritten and conflict-ignored columns only. The part about `market.events` needs distinct event keys, which the unique constraint of `event_store` gives.
- Checkpoint.NothingIsSkippedExactly: rows have distinct numbers and distinct keys, as the sequence and the unique constraint of `event_store` make them.
- Checkpoint.AtHeadIsOnePassExactly: does not cover `total_deposits`, `total_redemptions` and `holder_count`, for the same reason; the legacy database's own tables are not part of this model.
- Ledger.SharesAreConserved: needs a log without overdraft, since positions never fall below zero; `BalancedIffNoOverdraft` shows that the condition is necessary for exact positions.
- Funnel.IncrementalIsBatch: rows without a sequence number are not in the tables yet; days are 86 400 seconds; times are whole seconds; the cross_feature funnel is left out because its EXISTS would need an order across tables.
- Position.OrderIndependent: NUMERIC division is exact here, so the scale at which PostgreSQL rounds `cost_basis` is not modelled; `version` and the booleans derived from it are left out.
- LikePattern.SearchFindsOccurrences: case folding is any map of single characters that neither moves nor creates a metacharacter; foldings that change the length of a text are left out.
- RateLimit.RateLimiter.CheckCall: one process and integer milliseconds; the choice of key and limit from the request is not modelled.
- Explorer UI, routing, schemas, deployment scripts, generated code, authentication, configuration and the rules engine: not part of this model.
