# Crypto-portfolio backend: a model and its proofs

This project models the stateful cores of the backend in Dafny and proves what they promise. Money and
quantities are exact reals, a database transaction is one step, and every table or Redis key is a map or
a sequence.

Where the source changes state step by step there is a class or a method with loops
(`LedgerStore.dfy`, `PriceStore.dfy`, `SnapshotStore.dfy`, the classes in `RateLimit.dfy`,
`Subscriptions.dfy`, `ConnectedSync.dfy` and `Slug.dfy`, the loops in `Derive.dfy`, `ValueHistory.dfy`
and `PriceSeries.dfy`). Each method is proved equal to a function of the state before it, and the
results are proved about those functions: over all inputs, all runs, all interleavings.

- **The average-cost ledger** (`Recalc`, `Ledger`, `Bulk`, `LedgerStore`, `LedgerRuns`, `NeverShort`,
  `RowValues`, `UniqueHashes`, `PlanLimits`, `Effects`, `BulkRefines`, `Imports`, `Transfers`, `Undo`,
  `Derive`). The fold over a holding's rows, the requests that rewrite rows and by how much they move a
  holding, what every run keeps, why the CSV import is a fast form of single creates, what transfers
  conserve and how they and creates are undone, and when the two all-time profit measures agree.
- **The price resolver** (`Medians`, `PriceResolver`, `PriceFeed`, `PriceStore`). A majority of sources
  cannot be outvoted; what a stream of ticks leaves in the cache, the firehose and the history.
- **Concurrent protocols** as small steps: `Refund` (expiring lock, compare-and-set, external call,
  restore), `Refresh` (token rotation with reuse detection). `RateLimit` and `Subscriptions` are
  sequential.
- **Snapshots and connected wallets** (`Snapshots`, `SnapshotStore`, `ValueHistory`, `PriceSeries`,
  `TokenCatalog`, `ConnectedSync`), and portfolio slugs (`Slug`).

`dafny verify dfyconfig.toml` checks everything.

## Where the code and its descriptions part

The model follows the code. For each of these places the lemma named gives the exact condition, an if and
only if, under which the described behaviour holds.

- `removeAsset` leaves transaction rows behind. An import that buys such a token back starts its running
  balance at zero, while single creates count the old rows in (`BulkAgreesIffNoLeftovers`); a transfer to
  a portfolio with such rows changes the joint balance (`TransferConservesUnitsIff`).
- The import promises parity with single creates; it refuses lines of type transfer and with a blank or
  zero price, which single creates take (`BulkRefinesSinglesIff`, `OneLineIff`).
- A refused sale in a CSV file still claims its transaction hash (`AgreesIffDistinctNew`).
- A timestamp-only PATCH reorders a history without a recalculation (`ProjectionsKeptIffNotRetimed`).
- `src/modules/portfolios/portfolios.dto.ts:51` says that the two all-time measures differ only for
  cost-unknown assets; sales of cost-unknown units and transfer legs also make them differ (`AgreeIff`,
  and `TransferSplitsMeasures` for a concrete history).
- `src/modules/assets/assets.service.ts:114` says that netDeposit stays 0 for an opening position; the
  recalculation seeds it with the opening cost, as `src/modules/transactions/recalc.ts:104` states
  (`OpeningMoves`).
- The limiter's window is open at its start, so an interval of exactly the window's length can hold more
  than the limit (`EnforcedIffShorter`).
- The refund lock does not exclude concurrent requests once it can expire
  (`LockExcludesIffItNeverExpires`); the flag and the key do the work (`EachPaymentOnceIffKeyed`).
- An upgrade back to yearly clears a scheduled change to monthly in the row; the Stripe schedule behind it
  is never released (`UpgradeTakesBackIff`), and when it is carried out no handler tells the row
  (`AlwaysInStepIff`).
- Stripe's event does not heal a lost row update that should have changed the cycle or cleared or set a
  schedule (`EchoHealsIff`), and a repeated change to monthly asks Stripe for a second schedule
  (`RetryCompletesIff`).
- Replaying a refresh token between the swap and the used-marker is refused but does not revoke the
  session (`ReplayRevokesIffMarked`).
- Evicting a symbol from a capped map republishes an unchanged price and resamples early
  (`GatesHoldIffWithinCap`).
- A reclassification turns observed rows into estimates, which the next backfill replaces
  (`StaysIffNeverCutOff`).
- Two summary tokens with one ticker overwrite each other's balance (`SyncMatchesIff`), and a contract
  taken over late sends an earlier token to another row in the next pass (`SameRowsAgainIff`).
- A balance refresh leaves the cost basis of the last sync beside a new balance (`CostExactIff`).
- A price window that starts after two or more known days is led in by the oldest price, not the last
  one (`CarriedIsHistoricalIff`).

## Model

| member | source | states |
|---|---|---|
| `Recalc.SortIgnoresOrder` | src/modules/transactions/recalc.ts:72-95 | the (timestamp, id) order is total on distinct ids, so the chronological stream does not depend on the order in which the two detail tables return their rows |
| `Ledger.HistoryInOrder` | src/modules/transactions/recalc.ts:86-96 | a holding's history runs forward in time, and by id within one moment |
| `Ledger.LoggedFirstFoldedFirst` | src/modules/transactions/recalc.ts:93-96 | of two rows of a holding with one timestamp the one logged first is folded first |
| `Effects.BoughtThenSold` | src/modules/transactions/recalc.ts:93-131 | bought and sold at one timestamp, in this order: the gain is the difference and neither units nor cost are left |
| `Recalc.ProjectNets` | src/modules/transactions/recalc.ts:98-134 | balance and net deposit are opening plus buys minus sells, whatever the order of the rows |
| `Recalc.CostNeverOutlivesUnits` | src/modules/transactions/recalc.ts:98-134 | for positive amounts, any dollars and a lot the asset endpoints accept, after any history cost-known quantity is not negative and no cost is left without it; if no buy has negative dollars neither has the cost |
| `Recalc.AvgCostWithinLots` | src/modules/transactions/recalc.ts:98-134 | the average cost lies between the cheapest and the dearest unit price of the opening lot and the buys, whatever was sold in between; transfer legs may carry any dollars |
| `Recalc.SellKeepsAvgCost` | src/modules/transactions/recalc.ts:116-131 | a sell leaves the average cost alone while cost-known units remain |
| `Recalc.KnownHeldIffNeverShort` | src/modules/transactions/recalc.ts:98-134 | for positive amounts and any dollars, cost-known quantity stays within quantity at every point of a history exactly when quantity never goes negative |
| `Recalc.AccountingIdentity` | src/modules/transactions/recalc.ts:102-134 | for every history, cost basis minus net deposit minus realized gain is the proceeds of cost-unknown sold units plus what transfer legs book out above the cost they remove |
| `LedgerStores.FoldEvents` | src/modules/transactions/recalc.ts:97-134 | the loop over the five accumulators computes the projection of the fold |
| `LedgerStores.DetailsSortToHistory` | src/modules/transactions/recalc.ts:72-95 | native rows followed by token rows sort to the holding's one history |
| `LedgerStores.LedgerStore.RecalcAssetBalance` | src/modules/transactions/recalc.ts:46-148 | one asset row is re-projected from its lot and history; a connected wallet, a missing asset and everything else stay as they are |
| `LedgerStores.LedgerStore.RecalcPortfolioNetDeposit` | src/modules/transactions/recalc.ts:152-169 | the portfolio's net deposit becomes the sum over its assets, and nothing else changes |
| `LedgerStores.LedgerStore.CreateTransaction` | src/modules/transactions/transactions.create.private.ts:62-187 | each refusal in its order, the auto-created asset rolled back with a duplicate hash, otherwise exactly the row, the re-projection and the total |
| `LedgerStores.LedgerStore.UpdateTransaction` | src/modules/transactions/transactions.mutations.private.ts:45-232 | each refusal; the patched row in place; both holdings of a moved row recalculated, and no recalculation when neither balance nor value is affected |
| `LedgerStores.LedgerStore.DeleteTransaction` | src/modules/transactions/transactions.mutations.private.ts:244-320 | a plain row goes and its holding is recalculated; a transfer leg takes its whole group along and every touched holding and portfolio is recalculated |
| `LedgerStores.LedgerStore.DeleteLegs` | src/modules/transactions/transactions.mutations.private.ts:280-284 | deleting the legs one by one by id leaves exactly the rows outside the group |
| `LedgerStores.LedgerStore.CreateTransfer` | src/modules/transactions/transactions.transfer.private.ts:44-169 | each refusal; otherwise both legs with the same carried dollars, the destination asset if it was missing, and both recalculations in order |
| `LedgerStores.LedgerStore.BulkCreateTransactions` | src/modules/transactions/transactions.bulk.ts:83-346 | the file is refused as a whole or the forward pass, the batched write and one recalculation per touched token give exactly the tables and the summary of the specification |
| `LedgerStores.LedgerStore.ForwardPass` | src/modules/transactions/transactions.bulk.ts:118-283 | the loop over the lines yields the errors and prepared rows of the scan that the refinement results are about |
| `LedgerStores.LedgerStore.AddAsset` | src/modules/assets/assets.service.ts:43-120 | each refusal; otherwise the new opening lot, projected, and the new total |
| `LedgerStores.LedgerStore.EditOpening` | src/modules/assets/assets.service.ts:176-247 | a balance-only edit keeps the opening cost per unit, a cost edit replaces it, and the holding and the total are recalculated |
| `LedgerStores.LedgerStore.RemoveAsset` | src/modules/assets/assets.service.ts:265-287 | the asset goes, its transaction rows stay, the total is recalculated |
| `LedgerStores.LedgerStore.Serve` | src/modules/transactions/transactions.create.private.ts:45-187 | any request moves the object's tables as the runs below do, so every result about runs holds of the object |
| `Effects.CreateMoves` | src/modules/transactions/transactions.create.private.ts:97-172 | a create logs exactly its body, valued at the entered or the market price, and moves units and net deposit of its holding by it |
| `Effects.UpdateMoves` | src/modules/transactions/transactions.mutations.private.ts:115-217 | a patch takes the old row's amount and dollars out of every holding and puts the patched row's in |
| `Effects.DeleteMoves` | src/modules/transactions/transactions.mutations.private.ts:302-320 | deleting a row that is no transfer leg takes its amount and dollars out again |
| `Effects.OpeningMoves` | src/modules/assets/assets.service.ts:76-120 | a new asset holds its entered balance, and balance times price in dollars if a price was entered, on top of rows the token left behind; so its net deposit is 0 exactly when the dollars cancel |
| `Effects.EditMoves` | src/modules/assets/assets.service.ts:195-247 | an edit moves the holding by the change of its opening balance and cost |
| `LedgerRuns.RunKeepsBalances` | src/modules/transactions/recalc.ts:87-169 | over every run of creates, patches, deletes, imports, transfers, opening edits and removals, timestamp-only patches included, each existing asset's balance and net deposit are opening plus buys minus sells of its rows |
| `LedgerRuns.RunKeepsProjections` | src/modules/transactions/recalc.ts:87-148 | without timestamp-only patches average cost, cost basis and realized gain also stay the chronological fold |
| `LedgerRuns.ProjectionsKeptIffNotRetimed` | src/modules/transactions/transactions.mutations.private.ts:115-217 | a patch keeps every consistent ledger's projections chronological if and only if it is not timestamp-only |
| `LedgerRuns.TotalOnceRecalculated` | src/modules/transactions/recalc.ts:152-169 | once any request has recalculated a portfolio its net deposit is the sum over its assets for the rest of the run, whatever it started from |
| `LedgerRuns.DirectEditKeepsIffUnchanged` | src/modules/assets/assets.service.ts:248-250 | a netDeposit-only asset patch keeps balanced tables balanced if and only if it writes the stored value |
| `LedgerRuns.EditKeepsUnitCost` | src/modules/assets/assets.service.ts:200-208 | a balance-only edit of an opening position keeps its cost per unit and whether a cost is known |
| `NeverShort.RunNeverShort` | src/modules/transactions/transactions.create.private.ts:111-119 | over every run of creates, imports, transfers and openings, in any order, no stored balance of a manual portfolio goes below zero, as long as no history starts below zero |
| `NeverShort.PassIsCautious` | src/modules/transactions/transactions.bulk.ts:236-259 | at every line of a file the running balance of a held token is at most what the ledger would hold |
| `RowValues.RunKeepsPriced` | src/modules/transactions/transactions.mutations.private.ts:117-228 | in every run each row with an entered price is worth its amount at that price, so patches of amount, symbol or price never leave a stale value |
| `UniqueHashes.RunNoClash` | src/modules/transactions/transactions.create.private.ts:128-151 | over every run no hash is logged twice in a portfolio |
| `PlanLimits.FreePlanStaysInTopTen` | src/modules/transactions/transactions.create.private.ts:85-99 | over every run of a free user every token held afterwards is in the top ten or was held somewhere before |
| `Undo.DeleteUndoesCreate` | src/modules/transactions/transactions.mutations.private.ts:302-320 | deleting the row a create has just logged restores the tables, up to the used id and an asset row the create made |
| `Bulk.RowsPartition` | src/modules/transactions/transactions.bulk.ts:130-297 | whenever an import returns, imported plus skipped is the number of rows |
| `BulkRefines.BulkRefinesSinglesIff` | src/modules/transactions/transactions.bulk.ts:133-341 | for every file that repeats no new hash and names no token with leftovers, rows already imported included: the import accepts row i exactly when the single create would at that point and leaves exactly the tables of creating the accepted rows one by one, if and only if the single create refuses at its turn every line that only its own schema admits |
| `BulkRefines.OneLineIff` | src/modules/transactions/transactions.schemas.ts:7-43 | the two part on a one-line file if and only if the line is a valid body of type transfer, or with a blank or zero price, whose token and hash the single create takes |
| `BulkRefines.BulkRefinesSingles` | src/modules/transactions/transactions.bulk.ts:9-19 | so they agree on every such file of priced purchases and sales |
| `BulkRefines.BulkAgreesIffNoLeftovers` | src/modules/transactions/transactions.bulk.ts:242-246 | for any set of tokens, the import agrees with single creates on every file about them that repeats no new hash and has no line for the single create alone, if and only if no buyable, unheld one of them has old rows that do not net to zero |
| `BulkRefines.RemovalLeavesLeftovers` | src/modules/assets/assets.service.ts:279-284 | removing an asset whose rows do not net to zero makes some file that names only its token disagree with single creates |
| `BulkRefines.AgreesIffDistinctNew` | src/modules/transactions/transactions.bulk.ts:209-258 | for a leftover-free portfolio with a token that can be bought and oversold, and any hash column within the row cap: every file with that column and no line for the single create alone agrees with single creates if and only if the column's entries that are new to the portfolio are distinct, because a refused sale still claims its hash |
| `BulkRefines.SkipInvalidIsFilteredAllOrNothing` | src/modules/transactions/transactions.bulk.ts:284-341 | on files that repeat no new hash, skip_invalid leaves the tables and the count that all_or_nothing leaves on the file without its rejected rows |
| `BulkRefines.HoldingEndsNonNegative` | src/modules/transactions/transactions.bulk.ts:251-258 | whatever the file, an initially non-negative held asset ends non-negative |
| `BulkRefines.AllOrNothingIff` | src/modules/transactions/transactions.bulk.ts:284-341 | all_or_nothing refuses a file exactly when the pass rejects some line, and imports any other as skip_invalid does |
| `Imports.ImportedRows` | src/modules/transactions/transactions.bulk.ts:182-327 | the new rows are, in line order, one per accepted line, with the line's token, direction, amount, price, day and hash, and amount times price in dollars |
| `Imports.ImportMoves` | src/modules/transactions/transactions.bulk.ts:240-341 | every token's units and net deposit grow by the signed amounts, and amounts times prices, of its accepted lines, plus its leftover rows where the import creates the asset |
| `Transfers.TransferConserves` | src/modules/transactions/transactions.transfer.private.ts:103-164 | whatever its timestamp, a transfer keeps the two assets' joint balance and joint net deposit, up to the leftover rows that a newly created destination asset takes over |
| `Transfers.TransferConservesUnitsIff` | src/modules/transactions/transactions.transfer.private.ts:119-126 | joint units are conserved if and only if the destination was held or its leftover rows net to zero |
| `Transfers.TransferConservesTotals` | src/modules/transactions/transactions.transfer.private.ts:161-164 | the two recalculated portfolios keep their joint net deposit, up to the same leftover rows |
| `Transfers.TransferKeepsUnitDeposit` | src/modules/transactions/transactions.transfer.private.ts:114-115 | units that remain at the source keep their net deposit per unit |
| `Effects.TransferGrantedIff` | src/modules/transactions/transactions.transfer.private.ts:60-112 | between two manual portfolios of one owner any amount up to all of a holding may be moved, and no more |
| `Effects.TransferLogs` | src/modules/transactions/transactions.transfer.private.ts:103-158 | exactly two rows are logged, a sell and a buy of one amount, moment, group and dollar value |
| `Effects.MovingAllLeavesNothing` | src/modules/transactions/transactions.transfer.private.ts:103-164 | moving all of a holding leaves no units and no net deposit behind |
| `Transfers.RunKeepsPairs` | src/modules/transactions/transactions.mutations.private.ts:261-300 | in every run whose transfers use fresh group ids each group is either gone or one matching sell and buy |
| `Transfers.DeleteLegSettles` | src/modules/transactions/transactions.mutations.private.ts:261-300 | deleting either leg at any later time re-projects both holdings to the fold of the history without the pair, and both totals |
| `Transfers.DeleteLegConserves` | src/modules/transactions/transactions.mutations.private.ts:261-300 | deleting either leg gives the source the units and dollars the destination loses |
| `Transfers.DeleteUndoesTransfer` | src/modules/transactions/transactions.mutations.private.ts:261-300 | transfer, then delete either leg: the tables from before, except that a destination asset created by the transfer stays |
| `Derive.ComputeFromDb` | src/modules/portfolios/derive.ts:136-214 | the accumulation yields the reported fields as sums over the assets, whatever their order, with the connected wallet's two cases |
| `Derive.AgreeIff` | src/modules/portfolios/derive.ts:136-203 | value minus deposits equals unrealized plus realized gain at every price map if and only if no cost-unknown asset holds units and the price-independent gaps cancel |
| `Derive.FixedGapOfHistory` | src/modules/portfolios/derive.ts:136-151 | a projected asset's price-independent gap is what its history booked outside the cost basis |
| `Derive.CleanMeasuresAgree` | src/modules/portfolios/portfolios.dto.ts:47-64 | with all sales covered, no transfer sell legs and every held unit cost-known, the manual portfolio's two all-time measures are equal at every price map; incoming transfer legs may carry any dollars |
| `Derive.TransferSplitsMeasures` | src/modules/portfolios/portfolios.dto.ts:51-55 | the measures can differ without any cost-unknown asset: a transferred unit is enough |
| `PriceResolver.ExpiryIsInvisible` | src/lib/price-resolver.ts:141-154 | a key's expiry never changes a resolution: a tick takes part exactly when it is within the staleness window |
| `PriceResolver.MajorityDecides` | src/lib/price-resolver.ts:174-219 | if more than half of the merged fresh sources lie in [p, q] with q at most ratio times p, all of them survive the guard and the canonical price lies in [p/ratio, q*ratio] |
| `PriceResolver.HalfIsNotEnough` | src/lib/price-resolver.ts:176-206 | with exactly half the canonical price can be the misprint |
| `PriceResolver.WinnerIsFirst` | src/lib/price-resolver.ts:42-50 | the winner is the first of Binance, Coinbase, OKX, Bybit, Gate, KuCoin, Kraken among the sources near the median if there are two of them, else among all |
| `PriceResolver.MergedSpeaks` | src/lib/price-resolver.ts:156-168 | for Kraken speaks the newer of its two feeds, the trade if they are of one time; every other source stays as it is |
| `Medians.MajorityHoldsMedian` | src/lib/price-resolver.ts:176-179 | when more than half of the prices lie in a range so does the median, for odd and even counts |
| `PriceStores.PickWinner` | src/lib/price-resolver.ts:174-219 | median, guard, fallback and priority search pick the specified winner |
| `PriceStores.PriceStore.RecordTick` | src/lib/price-resolver.ts:99-130 | a tick without a positive finite price changes nothing; any other is stored and the symbol resolved |
| `PriceStores.PriceStore.ResolveCanonical` | src/lib/price-resolver.ts:137-269 | freshness filter, Kraken merge, guard and pick, then exactly the specified writes |
| `PriceStores.PriceStore.WriteBack` | src/lib/price-resolver.ts:235-262 | the cache always, a publish only when the price moved, a sample only when due, each stamped map capped |
| `PriceFeed.StampedKeyStays` | src/lib/price-resolver.ts:82-90 | capping a map never evicts the key just stamped, new or old, and never changes another entry's value |
| `PriceFeed.TickKeeps` | src/lib/price-resolver.ts:229-262 | after a usable tick the cached price equals the last published one, which is on record for the symbol |
| `PriceFeed.CachedIsCanonical` | src/lib/price-resolver.ts:137-240 | what a usable tick caches is price, change and source of that first source, among the symbol's ticks of the last 15000 ms |
| `PriceFeed.SampleIsCached` | src/lib/price-resolver.ts:246-262 | a usable tick puts the cached price in front of the symbol's samples exactly when 180000 ms have passed, keeps 480 of them for a day, and touches no other symbol's |
| `PriceFeed.EveryRunIsCoherent` | src/lib/price-resolver.ts:229-262 | over every tick stream: each cached price is the last one published for its symbol and a fresh tick of the source it names, the maps stay within the cap and histories within 480 entries |
| `PriceFeed.RunKeeps` | src/lib/price-resolver.ts:99-262 | the same from every coherent state, not only the empty one |
| `PriceFeed.GatesHoldIffWithinCap` | src/lib/price-resolver.ts:242-262 | no two consecutive publishes of a symbol are equal and samples are at least 180000 ms apart, on every forward stream over a set of symbols, if and only if the set fits the cap |
| `Refund.OneRefundIsConserved` | src/modules/subscriptions/subscriptions.service.ts:410-473 | in every interleaving of requests for any payments, for each payment: flag + requests between flip and restore + completed refunds + lost restores + webhook revocations is exactly 1 |
| `Refund.FlipExcludes` | src/modules/subscriptions/subscriptions.service.ts:418-450 | no two requests for a payment are ever between flip and restore, nor one there after a completed refund |
| `Refund.CreatedExactly` | src/modules/subscriptions/subscriptions.service.ts:440-450 | with one key per payment Stripe holds exactly one refund of a payment as soon as any call for it was answered or ambiguous, and none before |
| `Refund.EachPaymentOnceIffKeyed` | src/modules/subscriptions/subscriptions.service.ts:430-441 | over every run, no payment is refunded twice if and only if all requests for a payment use one key, and no request is barred by another payment's refund if and only if no two payments share a key |
| `Refund.RefundKeyIsKeyed` | src/modules/subscriptions/subscriptions.service.ts:441 | the key `refund:` followed by the payment's decimal id has both |
| `Refund.LockExcludesIffItNeverExpires` | src/modules/subscriptions/subscriptions.service.ts:410-416 | the cooldown lock keeps a payment's requests apart if and only if it cannot expire |
| `Refund.FailuresCostNothing` | src/modules/subscriptions/subscriptions.service.ts:442-450 | when all requests for a payment are done, none refunded, no restore lost and no webhook came, its flag is up again |
| `Refund.PassedWasEligible` | src/modules/subscriptions/subscriptions.service.ts:384-408 | over every run each request past the eligibility check was checked inside the refund window, with its payment's flag up and its status succeeded |
| `Refund.ChargeRefundedStops` | src/modules/webhooks/stripe-handlers.ts:429-433 | once Stripe reports a payment as refunded no request for it that arrives later is found eligible |
| `Refresh.TokenExchangedOnce` | src/modules/users/users.repository.ts:169-180 | in every interleaving each token hash is exchanged at most once |
| `Refresh.RunKeepsChains` | src/modules/auth/auth.service.ts:403-415 | a session's exchanges form one chain, each spending the token the last one issued, ending in the hash it carries |
| `Refresh.RevokedForever` | src/modules/users/users.repository.ts:156-189 | a revoked session stays revoked and never rotates again |
| `Refresh.ExchangedIffCarried` | src/modules/auth/auth.service.ts:376-415 | a token presented now is exchanged if and only if it is the one a live session carries |
| `Refresh.ReplayRevokesIffMarked` | src/modules/auth/auth.service.ts:380-393 | replaying a spent token is never exchanged, and leaves its session revoked if and only if it was revoked already or the used-marker is stored |
| `Refresh.ReplayIsCaught` | src/modules/auth/auth.service.ts:380-393 | once the marker is stored and does not expire, a request presenting the token can only end in revocation, whatever the others do meanwhile |
| `Refresh.ServedIsMarked` | src/modules/auth/auth.service.ts:416-418 | over every run each exchange whose client was answered has its used-marker stored until the marker expires |
| `Refresh.ReplayAfterServedRevokes` | src/modules/auth/auth.service.ts:376-418 | so presenting such a token again revokes its session |
| `Refresh.PassedWasLive` | src/modules/auth/auth.service.ts:395-402 | over every run a token is exchanged only after it was found with a live session of an existing user |
| `Refresh.NewTokenLives` | src/modules/auth/auth.service.ts:403-415 | an exchange hands out one new token, which lives exactly the time to live from then on; the old one is dead |
| `Refresh.RevokeRevokes` | src/modules/users/users.repository.ts:156-161 | a signed-out session never exchanges a token again |
| `Refresh.RevokeAllRevokes` | src/modules/users/users.repository.ts:182-189 | signing a user out everywhere does so to all sessions of the user and leaves every other session as it is |
| `RateLimit.SetIsWindow` | src/lib/rate-limit.ts:60-68 | over a clock that does not go back, the pruned and expiring set holds exactly the hits of the full log in the window ending at the last hit |
| `RateLimit.EnforcedIffShorter` | src/lib/rate-limit.ts:52-76 | an interval of a given length never holds more than the limit of admitted requests if and only if it is shorter than the window (or the limit is 0) |
| `RateLimit.RateLimiter.Hit` | src/lib/rate-limit.ts:46-85 | one request adds its hit, admitted or not, and is admitted exactly when the window including it holds at most the limit |
| `Subscriptions.EveryRunInSync` | src/modules/subscriptions/subscriptions.service.ts:167-376 | over any sequence of requests, events and new periods a running Stripe subscription will end exactly when the row is cancelled or scheduled for Free, a monthly row is billed monthly for good, a scheduled monthly cycle is scheduled at Stripe or already billed, and the row is well formed |
| `Subscriptions.AlwaysInStepIff` | src/modules/subscriptions/subscriptions.service.ts:235-332 | row and Stripe agree about billing cycle and schedule throughout a run if and only if no upgrade to yearly, no granted refund and no new period meets a scheduled change to monthly |
| `Subscriptions.UpgradeTakesBackIff` | src/modules/subscriptions/subscriptions.service.ts:235-250 | after any mixture of cancellations, downgrades, granted refunds, events and new periods an upgrade to the current cycle cleans the row, and restores the account if and only if no change to monthly was granted: nothing releases Stripe's schedule |
| `Subscriptions.ScheduleSurvivesUpgrade` | src/modules/subscriptions/subscriptions.service.ts:235-332 | yearly, change to monthly, upgrade to yearly: a clean row, and Stripe still goes monthly |
| `Subscriptions.EchoHealsIff` | src/modules/webhooks/stripe-handlers.ts:321-359 | when Stripe carried a request out but the row update was lost, Stripe's own event brings row and Stripe back into step if and only if the request was not an upgrade of a monthly row to yearly, nor an upgrade taking back a scheduled downgrade to Free, nor a change of a yearly row to monthly |
| `Subscriptions.RetryCompletesIff` | src/modules/subscriptions/subscriptions.service.ts:167-376 | sending the half-done request again completes it, however many of Stripe's events came in between, if and only if it is not a change to monthly or Stripe takes a second schedule |
| `Subscriptions.GrantedDoes` | src/modules/subscriptions/subscriptions.service.ts:167-461 | what the answer Updated means: a cancellation, a downgrade to Free or a refund is in the row and Stripe will end, a change to monthly is scheduled in both, an upgrade goes on at its cycle with nothing pending |
| `Subscriptions.GrantedEndEnds` | src/modules/subscriptions/subscriptions.service.ts:343-376 | after a granted cancellation, downgrade to Free or refund, through any further announcements, events and new periods, the end stays announced and Stripe's end event leaves the Free plan if a downgrade was scheduled and an expired row otherwise |
| `Subscriptions.SubscriptionStore.UpgradeSubscription` | src/modules/subscriptions/subscriptions.service.ts:167-254 | every branch of the upgrade, with Stripe's cycle, flag and schedule and the row it leaves |
| `Subscriptions.SubscriptionStore.DowngradeSubscription` | src/modules/subscriptions/subscriptions.service.ts:259-337 | every branch of the downgrade, with Stripe's flag or schedule and the row it leaves |
| `Subscriptions.SubscriptionStore.CancelSubscription` | src/modules/subscriptions/subscriptions.service.ts:343-376 | every branch of the cancellation; cancelling twice is a no-op |
| `Subscriptions.SubscriptionStore.ScheduleDowngrade` | src/modules/subscriptions/subscriptions.service.ts:457-461 | a granted refund schedules the downgrade and clears a scheduled cycle |
| `Subscriptions.SubscriptionStore.CreateFreeSubscription` | src/modules/subscriptions/subscriptions.repository.ts:30-53 | the free row, once per user |
| `Subscriptions.SubscriptionStore.UpsertFromCheckout` | src/modules/subscriptions/subscriptions.repository.ts:66-109 | a checkout creates or replaces the row and clears everything pending |
| `Subscriptions.SubscriptionStore.SubscriptionUpdated` | src/modules/webhooks/stripe-handlers.ts:321-359 | the event copies the end flag into an active or cancelled status and nothing else, for any account |
| `Subscriptions.SubscriptionStore.SubscriptionDeleted` | src/modules/subscriptions/subscriptions.repository.ts:111-136 | the end of the Stripe subscription applies a scheduled downgrade, or expires the row |
| `Snapshots.PastIsFinal` | src/modules/wallet-data/sync.private.ts:423-468 | over any run of the daily job, connected backfills and demo backfills with a clock that does not go back, an observed row of a past day never changes value or flag |
| `Snapshots.DailyWrites` | src/jobs/snapshot.job.ts:92-116 | the daily job writes today's observed value of every Pro portfolio it could derive and nothing else |
| `Snapshots.BackfillWrites` | src/modules/wallet-data/sync.private.ts:428-464 | a connected backfill writes today's point as observed whatever was there, past points over estimates and gaps only, and nothing else |
| `Snapshots.DemoWrites` | src/scripts/backfill-snapshots.ts:227-243 | a demo backfill writes estimates over estimates and gaps only, and nothing else |
| `Snapshots.ReclassifyingReopens` | src/scripts/reclassify-connected-snapshots.ts:61-104 | for any table, portfolio and past day with a point: a backfill right after the pass replaces an observed row by its point exactly when a day without a row lies between it and a later row, and otherwise leaves it |
| `Snapshots.BackfillTwice` | src/modules/wallet-data/sync.private.ts:428-464 | applying the same connected series again changes nothing |
| `Snapshots.DemoTwice` | src/scripts/backfill-snapshots.ts:227-243 | applying the same demo series again changes nothing |
| `SnapshotStores.SnapshotStore.BackfillDemo` | src/scripts/backfill-snapshots.ts:227-243 | the chunked upserts of the demo curve leave the estimates of the specification, over estimates only |
| `Snapshots.StaysIffNeverCutOff` | src/scripts/reclassify-connected-snapshots.ts:61-104 | over any run of the job, both backfills and reclassifications, an observed past row stays as it is at every moment if and only if no reclassification of its portfolio meets a gap behind it |
| `Snapshots.ReclassifyTwice` | src/scripts/reclassify-connected-snapshots.ts:61-108 | a second pass flips nothing |
| `SnapshotStores.SnapshotStore.ReclassifyConnected` | src/scripts/reclassify-connected-snapshots.ts:61-108 | the scan for the trailing consecutive-day run flips and counts exactly the observed rows that a gap cuts off from the newest one; a dry run writes nothing |
| `SnapshotStores.SnapshotStore.RunSnapshotJob` | src/jobs/snapshot.job.ts:66-139 | one observed row for today per Pro portfolio that could be derived, with both counters; a failure skips only its portfolio |
| `SnapshotStores.SnapshotStore.BackfillConnected` | src/modules/wallet-data/sync.private.ts:428-464 | past days only over estimates, today always |
| `SnapshotStores.SnapshotStore.BulkUpsert` | src/scripts/backfill-snapshots.ts:214-246 | upserting in chunks of 500 is upserting the whole series |
| `SnapshotStores.BuildConnectedHistory` | src/modules/wallet-data/sync.private.ts:369-406 | ascending days up to today with the overwrite order's values, and exactly the known days from the first positive one on |
| `SnapshotStores.EstimateIffOnlySampled` | src/modules/wallet-data/sync.private.ts:394-397 | a day is an estimate exactly when only the samples know it |
| `ValueHistory.BuildValueHistory` | src/modules/overview/overview.private.ts:16-69 | the last dates of the union, each the rounded sum of every series' latest value, flagged exactly when a contributing latest point is an estimate, trimmed to the first positive value |
| `ValueHistory.HistoryIsUnique` | src/modules/overview/overview.private.ts:33-68 | these requirements determine the chart |
| `ValueHistory.AddingSeriesRaises` | src/modules/overview/overview.private.ts:35-60 | a further non-negative series never lowers the value on a date both charts show, nor clears an estimate flag |
| `ValueHistory.ScanSeries` | src/modules/overview/overview.private.ts:41-53 | stopping at the first later point finds the latest value on or before the date |
| `PriceSeries.BuildRealSeries` | src/scripts/backfill-snapshots.ts:176-200 | carried values inside the window, the oldest known price before any known day, the newest in the last slot; none without prices |
| `PriceSeries.CarriedIsHistoricalIff` | src/scripts/backfill-snapshots.ts:190-197 | the carried value is the last known one on or before the day if and only if some day of the window is known by then, or nothing is, or the oldest price equals the last one known by then |
| `ConnectedSync.FetchWalletSummaryForSync` | src/modules/wallet-data/index.ts:103-119 | the first found summary in priority order; empty only if some provider saw an empty wallet and none failed |
| `ConnectedSync.CombinesOneWay` | src/modules/wallet-data/index.ts:103-119 | the answers determine the outcome |
| `ConnectedSync.ConnectedStore.SetConnectedBalances` | src/modules/wallet-data/sync.ts:176-238 | the upsert loop and the final zeroing give every old and every named token its summary balance and, with a cost map, its cost columns |
| `ConnectedSync.ConnectedStore.ResolveOrCreateToken` | src/modules/wallet-data/sync.private.ts:29-88 | contract first, then symbol, else a new row; a symbol match without a contract takes over the wallet's, and what does not fit its column is skipped |
| `ConnectedSync.ConnectedStore.ResolveHeldTokens` | src/modules/wallet-data/sync.ts:294-322 | the loop over the summary yields the holdings and the catalog of resolving its tokens in order |
| `ConnectedSync.ConnectedStore.SyncHoldings` | src/modules/wallet-data/sync.ts:253-277 | an unverified wallet or an incompletely resolved summary changes no row; any other is written, with or without a cost map |
| `ConnectedSync.SyncMatchesIff` | src/modules/wallet-data/sync.ts:181-235 | after a sync or refresh every balance equals the summary, 0 when absent, if and only if no two of its tokens have one ticker and different balances |
| `TokenCatalog.SameRowIffSameTicker` | src/modules/wallet-data/sync.private.ts:29-88 | two tokens of a summary resolve to one catalog row if and only if their tickers agree: the catalog's symbol for their contract, else their own |
| `TokenCatalog.TickerBefore` | src/modules/wallet-data/sync.private.ts:34-45 | if no contract is reported twice, the tickers can be read off the catalog before the pass |
| `TokenCatalog.SameRowsAgainIff` | src/modules/wallet-data/sync.private.ts:29-88 | resolving a resolved summary again leaves the catalog alone, and finds the same rows if and only if no contract was taken over after an earlier token carrying it was matched by symbol |
| `TokenCatalog.OncePerContractIsNeverLate` | src/modules/wallet-data/sync.private.ts:47-52 | which cannot happen if no contract is reported twice |
| `ConnectedSync.ClearsOnlyWhenEmpty` | src/modules/wallet-data/index.ts:112-118 | if summaries name some token, a sync or refresh that changes something and leaves nothing but zeros had a verified empty wallet |
| `ConnectedSync.SyncTwice` | src/modules/wallet-data/sync.ts:253-277 | repeating a written sync or refresh with the same answer changes neither rows nor catalog when its tokens find the same rows again |
| `ConnectedSync.SetTwice` | src/modules/wallet-data/sync.ts:176-238 | a second sync with the same summary and cost map changes nothing |
| `ConnectedSync.CostExactIff` | src/modules/wallet-data/sync.ts:181-235 | over every run of syncs and refreshes a row differs from the last written sync with a cost map in its balance alone; cost basis is average cost times balance if and only if that balance is back or no cost is known, and an average cost stands on an empty row if and only if that sync had one and the wallet has sold out since |
| `ConnectedSync.GainIsReported` | src/modules/wallet-data/sync.ts:181-235 | until the next sync with a cost map, whatever is refreshed in between, every token shows the gain of the provider's report: realized, plus today's units valued against the reported average cost |
| `Slug.FixedIffNormal` | src/modules/portfolios/slug.ts:1-9 | a name is its own slug if and only if it has only a-z, 0-9 and single dashes, none at either end |
| `Slug.SlugifyTwice` | src/modules/portfolios/slug.ts:1-9 | slugify is idempotent |
| `Slug.PortfolioNames.AssertSlugAvailable` | src/modules/portfolios/portfolios.service.ts:38-54 | refused as invalid exactly when the slug is empty, allowed exactly when no other portfolio has it |
| `Slug.PortfolioNames.CreatePortfolio` | src/modules/portfolios/portfolios.service.ts:56-71 | one user's slugs stay non-empty and pairwise distinct over creates, with the exact refusals |
| `Slug.PortfolioNames.RenamePortfolio` | src/modules/portfolios/portfolios.service.ts:269-284 | the same over renames; keeping one's own name or slug is allowed |

## Left out

- Rounding: `toFixed(8)`, Decimal(20,8) clamping and IEEE noise; amounts are exact reals. The chart's rounding to cents is modelled.
- In the ledger tokens are identified with their unique symbol; the catalog is a parameter there, and the token lookups that cannot fail for a stored row are not repeated.
- Row locks, isolation levels and reads made before a transaction: each ledger request is one sequential, successful step.
- Column lists that carry no arithmetic: notes, addresses, gas fees, NFT details, names and timestamps of rows other than the event time.
- The price lookup behind usdValue: the current market price is a parameter of a create or patch.
- Webhook-created transactions, wallet transfer import, acquisition seeding and the opening-lot reconcile: they write rows of connected wallets, which recalculation skips.
- Bulk import of assets, listings, DTOs, caches, mail and HTTP layers: no state or loops that would add a harder property.
- Derive.ComputeFromDb: leaves out the short-term deltas, which read two snapshots and subtract; the derived-field cache is not modelled.
- PriceStores.PriceStore.RecordTick: takes the symbol in upper case already, has one clock for ticks and key expiry, and does not model Redis failures or the second writer of `price:<SYMBOL>` in the prices service.
- Refund.EachPaymentOnceIffKeyed: takes a key as remembered for as long as requests repeat; Stripe's own expiry of keys and its refusal to refund a charge twice are not modelled, and a call under another payment's key counts as refused. The reason a user gives is sent under the same key; Stripe's refusal of a key with changed parameters appears only as one of the failures any call may meet. The choice of the latest payment is an input.
- Refresh.TokenExchangedOnce: takes hashes as fresh and injective, and sessions as never deleted.
- RateLimit.RateLimiter.Hit: takes set members as unique and Redis as available; on an error the limiter lets the request through.
- Subscriptions.EveryRunInSync: sequential requests whose Stripe call and row update both succeed (a lost row update is the subject of EchoHealsIff and RetryCompletesIff). Whether Stripe takes a second schedule for one subscription is a parameter; its other refusals, prices, period dates, a schedule after it has been carried out and a subscription left behind by a second checkout are not modelled.
- SnapshotStores.BuildConnectedHistory: reads the clock once, so a midnight between the source's two reads is not modelled; which days are sampled is an input.
- Snapshots: retention (`drop_chunks`), the token price table's unguarded upsert and the synthetic price walk of the demo script.
- ConnectedSync.ConnectedStore.SetConnectedBalances: absent per-row write failures, which the source logs and skips; matching provider cost items to tokens is an input.
- ConnectedSync.ConnectedStore.SyncHoldings: what a full sync does besides, importing transfers and NFTs, is not modelled, nor are the catalog's display columns.
- ConnectedSync.ConnectedStore.ResolveOrCreateToken: takes symbols and contracts as case-folded already and one pass at a time, without the retry after a concurrent insert. With two rows of one contract it takes the older one, where the source's query leaves the choice open.
- Slug.SlugifyTwice: lower-casing and white space are parameters, required only to leave slug characters alone.
- PriceSeries.BuildRealSeries: takes the prices that are finite numbers.
- Pair-name parsing, exchange sockets, provider adapters, login lockout, password and mail flows: driven by foreign services, no invariant of their own here.
