# BigBull portfolio bookkeeping in Dafny

A model of the bookkeeping core of the BigBull trading server (a Spring Boot
service). One user holds one cash wallet. The server keeps one position per
asset symbol, with a quantity and a weighted-average cost per unit. Each trade
leaves one record in an append-only ledger.

- `executeTransaction` buys or sells a number of units at the live quote.
  It checks the asset, the price and the wallet, then the balance (BUY) or
  the units held (SELL). It updates the wallet and the position and saves the
  ledger record. Any failure is reported as "Transaction failed" and changes
  nothing.
- The wallet operations create a wallet and move cash in or out of it: debit
  and credit for trades, deposit and withdrawal for the user.
- The asset operations merge a lot into a position by weighted average, look
  positions up, delete them, and value one position at its quote.
- The portfolio summary values every held position and adds up value, cost
  and gain.

The files follow the program's structure:

| file | module | models |
|---|---|---|
| `wrappers.dfy` | `Wrappers` | `Option`, `Result`, `Outcome` |
| `text.dfy` | `Text` | ASCII `toUpperCase`, `equalsIgnoreCase`, `trim` |
| `seqs.dfy` | `Seqs` | the two repository query shapes: filter and first match |
| `errors.dfy` | `Errors` | one constructor per exception the core throws |
| `asset_entity.dfy` | `AssetEntity` | the asset row and how a trade reads its nullable numbers |
| `quotes.dfy` | `Quotes` | the quote service as two price books |
| `wallet_entity.dfy` | `WalletEntity` | the `Wallet` entity and its `@PrePersist` hook |
| `transaction_entity.dfy` | `TransactionEntity` | the `Transaction` entity, its synchronising setters and `@PrePersist` hook |
| `repositories.dfy` | `Repositories` | the three repositories as one store |
| `wallet_service.dfy` | `Wallets` | `WalletService` |
| `asset_service.dfy` | `Assets` | `AssetService` |
| `transaction_service.dfy` | `Trading` | `TransactionService` |
| `portfolio_service.dfy` | `Portfolio` | `PortfolioService` |
| `bookkeeping.dfy` | `Bookkeeping` | properties across services, and worked examples |

How the model is built:

- **Services as classes.** Each service is a class over a shared
  `Repositories.Store`. Its state-changing methods are imperative and are
  proved equal to pure functions of the old store: `Wallets.Deducted`,
  `Assets.Merged`, `Trading.PlanTrade` with `Trading.AfterTrade`,
  `Portfolio.PortfolioOf`. The properties are proved about those functions.
- **Entities.** The two entities whose setters and hooks matter, `Wallet` and
  `Transaction`, are classes with nullable (`Option`) fields. Their setter and
  hook methods are the ones the services call. Stored rows are datatypes.
- **Numbers.** Every `double` is a `real`. A nullable `Double` is an
  `Option<real>`, and unboxing a null raises `NullValue`, which stands for the
  `NullPointerException`. The `int` unit count is an `int`.
- **Quotes.** The live price is a parameter: a `Quotes.Market` holding a stock
  book and a crypto book. A symbol missing from its book stands for every way
  the HTTP call can fail. A trade then fails. The valuation uses 0.0 instead,
  as its price lookup does.

## Model

| member | source | states |
|---|---|---|
| `Text.ToUpper` | src/main/java/com/BigBull/service/TransactionService.java:113 | the upper-cased type has the same length, and each character is the ASCII upper-case of the original |
| `Text.UpperOfMatch` | src/main/java/com/BigBull/service/TransactionService.java:56-113 | a type accepted by `equalsIgnoreCase("BUY")` (or "SELL") is stored as exactly "BUY" (or "SELL") |
| `Text.TrimStart` | src/main/java/com/BigBull/service/WalletService.java:16 | drops exactly the leading characters up to U+0020, and the result starts with another character |
| `Text.TrimEnd` | src/main/java/com/BigBull/service/WalletService.java:16 | drops exactly the trailing characters up to U+0020, and the result ends with another character |
| `Text.TrimEmptyIffBlank` | src/main/java/com/BigBull/service/WalletService.java:16-18 | `trim().isEmpty()` holds if and only if every character is at most U+0020 |
| `Seqs.Filter` | src/main/java/com/BigBull/repository/TransactionRepository.java:15-17 | a derived query returns only matching rows drawn from the table, and every matching row |
| `Seqs.FirstWhere` | src/main/java/com/BigBull/repository/AssetRepository.java:12 | a lookup finds the first matching row, and finds none exactly when no row matches |
| `Quotes.Quote` | src/main/java/com/BigBull/service/TransactionService.java:144-177 | a type equal to "CRYPTO" ignoring case asks the crypto book, any other type the stock book; the quote exists exactly when that book has the symbol |
| `Quotes.QuoteOrZero` | src/main/java/com/BigBull/service/AssetService.java:108-129 | the summary's lookup answers the quote when there is one and 0.0 otherwise |
| `WalletEntity.DefaultToZero` | src/main/java/com/BigBull/entity/Wallet.java:41-42 | the hook always leaves a total set, and keeps a total that was already set |
| `WalletEntity.DefaultToZeroIdempotent` | src/main/java/com/BigBull/entity/Wallet.java:41-42 | running the defaulting twice is running it once; a null total becomes 0.0 |
| `WalletEntity.Wallet.constructor` | src/main/java/com/BigBull/entity/Wallet.java:12 | the no-argument constructor leaves every field null |
| `WalletEntity.Wallet.OnCreate` | src/main/java/com/BigBull/entity/Wallet.java:37-43 | null totals become 0.0, set totals stay, and username and balance are untouched |
| `WalletEntity.Wallet.Row` | src/main/java/com/BigBull/entity/Wallet.java:19-29 | the stored row carries exactly the entity's four column values |
| `TransactionEntity.FillIfNull` | src/main/java/com/BigBull/entity/Transaction.java:87-101 | the other price column keeps a set value and takes the new one only while it is null |
| `TransactionEntity.OnCreateSyncsPrices` | src/main/java/com/BigBull/entity/Transaction.java:56-65 | after the hook, both price columns are set once either is, and they agree unless both were set before |
| `TransactionEntity.Transaction.constructor` | src/main/java/com/BigBull/service/TransactionService.java:110 | a new entity has every field null |
| `TransactionEntity.Transaction.SetId` | src/main/java/com/BigBull/entity/Transaction.java:67-69 | sets the id and nothing else |
| `TransactionEntity.Transaction.SetUsername` | src/main/java/com/BigBull/entity/Transaction.java:71-73 | sets the username and nothing else |
| `TransactionEntity.Transaction.SetAsset` | src/main/java/com/BigBull/entity/Transaction.java:75-77 | sets the asset and nothing else |
| `TransactionEntity.Transaction.SetQuantity` | src/main/java/com/BigBull/entity/Transaction.java:34-36 | sets the quantity and nothing else |
| `TransactionEntity.Transaction.SetType` | src/main/java/com/BigBull/entity/Transaction.java:79-81 | sets the type and nothing else |
| `TransactionEntity.Transaction.SetUnits` | src/main/java/com/BigBull/entity/Transaction.java:83-85 | sets the units and nothing else |
| `TransactionEntity.Transaction.SetPrice` | src/main/java/com/BigBull/entity/Transaction.java:87-93 | sets the price, fills the per-unit price only while it is null, and changes nothing else |
| `TransactionEntity.Transaction.SetPricePerUnit` | src/main/java/com/BigBull/entity/Transaction.java:95-101 | sets the per-unit price, fills the price only while it is null, and changes nothing else |
| `TransactionEntity.Transaction.SetTotalAmount` | src/main/java/com/BigBull/entity/Transaction.java:103-105 | sets the total amount and nothing else |
| `TransactionEntity.Transaction.OnCreate` | src/main/java/com/BigBull/entity/Transaction.java:56-65 | a null price column takes the other's value; all other fields are untouched |
| `TransactionEntity.Transaction.Row` | src/main/java/com/BigBull/entity/Transaction.java:15-51 | the stored row carries the generated id and exactly the entity's column values |
| `Repositories.IndexOfSymbol` | src/main/java/com/BigBull/repository/AssetRepository.java:12 | `findBySymbol` finds a row with that symbol, or reports that no row has it |
| `Repositories.IndexOfId` | src/main/java/com/BigBull/service/AssetService.java:57-59 | `findById` finds the first row with that id, or reports that no row has it |
| `Repositories.RemoveAt` | src/main/java/com/BigBull/service/AssetService.java:65-67 | removing one row keeps the rows before it and shifts the rows after it down by one |
| `Repositories.WithoutIdIsFilter` | src/main/java/com/BigBull/service/AssetService.java:65-67 | with unique ids, `deleteById` keeps exactly the rows with another id, in order |
| `Repositories.RemoveAtKeepsKeys` | src/main/java/com/BigBull/entity/Asset.java:14-25 | deleting a row keeps symbols and ids unique |
| `Repositories.Store.constructor` | src/main/java/com/BigBull/service/TransactionService.java:24-31 | the repositories start empty and consistent |
| `Repositories.Store.InsertWallet` | src/main/java/com/BigBull/service/WalletService.java:23-28 | saving a new wallet runs its hook, then refuses a taken username or stores the row under its username |
| `Repositories.Store.SaveWallet` | src/main/java/com/BigBull/service/TransactionService.java:104-105 | saving a stored wallet replaces its row only |
| `Repositories.Store.InsertAsset` | src/main/java/com/BigBull/service/AssetService.java:34-38 | saving a new asset gives it the next identity value and appends it |
| `Repositories.Store.SaveAsset` | src/main/java/com/BigBull/service/TransactionService.java:106-107 | saving a stored asset replaces its row only |
| `Repositories.Store.DeleteAssetById` | src/main/java/com/BigBull/service/AssetService.java:65-67 | deletes the row with that id, ignores a missing id, and keeps the store consistent |
| `Repositories.Store.SaveTransaction` | src/main/java/com/BigBull/service/TransactionService.java:121 | runs the hook, gives the record id = ledger length + 1, and appends a row whose price columns are reconciled |
| `Wallets.Debited` | src/main/java/com/BigBull/service/WalletService.java:47-48 | a debit moves the amount from the balance into the invested total, so the net contribution does not change |
| `Wallets.Credited` | src/main/java/com/BigBull/service/WalletService.java:55-56 | a credit moves the amount into the balance and the withdrawn total, so the net contribution does not change |
| `Wallets.Deposited` | src/main/java/com/BigBull/service/WalletService.java:66 | a deposit raises the balance and the net contribution by the amount, and leaves the totals alone |
| `Wallets.Withdrawn` | src/main/java/com/BigBull/service/WalletService.java:79 | a withdrawal lowers the balance and the net contribution by the amount, and leaves the totals alone |
| `Wallets.Created` | src/main/java/com/BigBull/service/WalletService.java:15-29 | a null or blank username is refused first, then a null or negative balance; a wallet is created exactly when both pass and the username is free, with zero totals |
| `Wallets.Deducted` | src/main/java/com/BigBull/service/WalletService.java:42-50 | an unknown wallet, then a balance below the amount, is refused; a debit succeeds exactly otherwise, including the whole balance, and leaves it non-negative |
| `Wallets.Added` | src/main/java/com/BigBull/service/WalletService.java:53-58 | fails only for an unknown wallet; any amount is credited, with no validation |
| `Wallets.DepositResult` | src/main/java/com/BigBull/service/WalletService.java:61-68 | a null or non-positive amount is refused before the wallet is looked up; a deposit succeeds exactly otherwise when the wallet exists |
| `Wallets.WithdrawResult` | src/main/java/com/BigBull/service/WalletService.java:71-81 | amount, then wallet, then balance are checked in that order; a withdrawal succeeds exactly when all pass, and leaves the balance non-negative |
| `Wallets.DepositWithdrawRoundTrip` | src/main/java/com/BigBull/service/WalletService.java:61-81 | for a wallet whose balance is not negative, depositing a positive amount and withdrawing it again restores the wallet map (from a negative balance the withdrawal is refused) |
| `Wallets.WalletService.constructor` | src/main/java/com/BigBull/service/WalletService.java:12-13 | the service works on the given store |
| `Wallets.TrimIsEmpty` | src/main/java/com/BigBull/service/WalletService.java:16 | `username.trim().isEmpty()` is true exactly for a username of characters at most U+0020 |
| `Wallets.WalletService.CreateWallet` | src/main/java/com/BigBull/service/WalletService.java:15-29 | the result and the new wallets are those of `Created`; assets and ledger are untouched |
| `Wallets.WalletService.GetWalletByUsername` | src/main/java/com/BigBull/service/WalletService.java:31-34 | finds the stored wallet, or fails with "wallet not found" |
| `Wallets.WalletService.DeductBalance` | src/main/java/com/BigBull/service/WalletService.java:42-50 | the result and the new wallets are those of `Deducted`; a failure stores nothing |
| `Wallets.WalletService.AddBalance` | src/main/java/com/BigBull/service/WalletService.java:53-58 | the result and the new wallets are those of `Added` |
| `Wallets.WalletService.DepositFunds` | src/main/java/com/BigBull/service/WalletService.java:61-68 | the outcome and the new wallets are those of `DepositResult` |
| `Wallets.WalletService.WithdrawFunds` | src/main/java/com/BigBull/service/WalletService.java:71-81 | the outcome and the new wallets are those of `WithdrawResult` |
| `Assets.Merged` | src/main/java/com/BigBull/service/AssetService.java:40-48 | a null number throws; otherwise the quantities add, identity fields are kept, and the merged cost keeps the total cost value of both lots |
| `Assets.MergedCostBetween` | src/main/java/com/BigBull/service/AssetService.java:40-45 | with positive quantities the merged average cost lies between the two lot costs |
| `Assets.AtCost` | src/main/java/com/BigBull/service/AssetService.java:90-104 | the catch branch values the position at cost with zero gain, and throws itself on a null field |
| `Assets.GetAssetSummary` | src/main/java/com/BigBull/service/AssetService.java:69-106 | fails exactly on a null quantity or cost; otherwise value = price × quantity, cost = cost × quantity, gain = (price − cost) × quantity, and the percentage is gain over cost, or 0 without a positive cost |
| `Assets.FallbackNeverReturned` | src/main/java/com/BigBull/service/AssetService.java:69-106 | the catch branch is entered only when it throws as well, so the summary is always the try branch's |
| `Assets.GainPercentageIsPriceChange` | src/main/java/com/BigBull/service/AssetService.java:72-75 | for a held position with a positive cost, the gain percentage is the relative change of the price against the cost |
| `Assets.UnavailableQuoteIsTotalLoss` | src/main/java/com/BigBull/service/AssetService.java:108-129 | because an unavailable quote reads as 0.0, a held position at a positive cost shows value 0 and a loss of −100 % (at cost 0 the percentage is 0) |
| `Assets.AssetService.constructor` | src/main/java/com/BigBull/service/AssetService.java:18-20 | the service works on the given store |
| `Assets.AssetService.AddOrUpdateAsset` | src/main/java/com/BigBull/service/AssetService.java:30-51 | a new symbol is appended under the next id, which then advances; a known one is replaced by `Merged` and the next id stays; a null number stores nothing; the store stays consistent |
| `Assets.AssetService.GetAllAssets` | src/main/java/com/BigBull/service/AssetService.java:53-55 | all positions in repository order |
| `Assets.AssetService.GetAssetBySymbol` | src/main/java/com/BigBull/service/AssetService.java:61-63 | the position with that symbol, or none exactly when no position has it |
| `Assets.AssetService.GetAssetById` | src/main/java/com/BigBull/service/AssetService.java:57-59 | the position with that id, or none exactly when no position has it |
| `Assets.AssetService.DeleteAsset` | src/main/java/com/BigBull/service/AssetService.java:65-67 | the positions left are exactly those with another id, in order |
| `Trading.Bought` | src/main/java/com/BigBull/service/TransactionService.java:67-82 | a BUY adds the units; an empty position takes the price as its cost; otherwise the cost is the weighted average that adds the purchase to the total cost value |
| `Trading.Sold` | src/main/java/com/BigBull/service/TransactionService.java:85-97 | a SELL removes the units, keeps the cost per unit, and keeps the row even at zero |
| `Trading.SettleBuy` | src/main/java/com/BigBull/service/TransactionService.java:56-82 | a BUY fails exactly when the balance is below price × units, reporting both; on success the wallet is debited, the position bought, and the record says "BUY" at that price |
| `Trading.SettleSell` | src/main/java/com/BigBull/service/TransactionService.java:84-98 | a SELL fails exactly when fewer units are held than asked, reporting both; on success the wallet is credited, the position sold, and the record says "SELL" at that price |
| `Trading.PlanTrade` | src/main/java/com/BigBull/service/TransactionService.java:39-101 | failures come in the source's order: missing asset, unavailable price, missing wallet, then the BUY or SELL check; an unknown type is reported only after all three lookups; only a BUY that passes the balance check is required not to divide by zero |
| `Trading.TradeConservesCash` | src/main/java/com/BigBull/service/TransactionService.java:56-98 | every trade changes the balance by exactly the cash its record moved and keeps the wallet's net contribution |
| `Trading.Respond` | src/main/java/com/BigBull/service/TransactionService.java:123-141 | every failure is wrapped as "Transaction failed"; a success reports the record id, the new balance and the new quantity |
| `Trading.Run` | src/main/java/com/BigBull/service/TransactionService.java:38-142 | a sequence of trades with positive units, on solvent books and at non-negative quotes, keeps every balance and every quantity non-negative |
| `Trading.TradeIsDefined` | src/main/java/com/BigBull/service/TransactionService.java:67-78 | with positive units on books with no negative quantity (balances are unconstrained), no order reaches a division by zero |
| `Trading.TradePreservesSolvency` | src/main/java/com/BigBull/service/TransactionService.java:58-97 | with positive units and a non-negative quote, one trade on solvent books is computable and keeps them solvent |
| `Trading.StepConservesCash` | src/main/java/com/BigBull/service/TransactionService.java:56-121 | one trade either leaves the books as they were or appends its record and moves the user's balance by that record's cash |
| `Trading.RunConservesCash` | src/main/java/com/BigBull/service/TransactionService.java:38-142 | over any sequence of trades that `Run` accepts (positive units, solvent starting books, non-negative quotes) the ledger only grows, and each wallet's balance is its initial balance minus its BUY amounts plus its SELL amounts |
| `Trading.NewRecord` | src/main/java/com/BigBull/service/TransactionService.java:110-118 | the record is built with every field set and both price columns equal to the live price |
| `Trading.TransactionService.constructor` | src/main/java/com/BigBull/service/TransactionService.java:24-34 | the service works on the given store |
| `Trading.TransactionService.ExecuteTransaction` | src/main/java/com/BigBull/service/TransactionService.java:38-142 | the response is `Respond` of `PlanTrade`; a success stores the wallet, the position and the appended record, a failure stores nothing; the store stays consistent |
| `Trading.TransactionService.GetAllTransactions` | src/main/java/com/BigBull/service/TransactionService.java:179-181 | the whole ledger in order |
| `Trading.TransactionService.GetTransactionById` | src/main/java/com/BigBull/service/TransactionService.java:183-186 | found exactly for ids 1 to the ledger length, as that ledger entry; otherwise "Transaction not found" |
| `Trading.TransactionService.GetTransactionsByUsername` | src/main/java/com/BigBull/service/TransactionService.java:188-190 | only that user's records, and all of them |
| `Trading.TransactionService.GetTransactionsByAssetId` | src/main/java/com/BigBull/service/TransactionService.java:192-194 | only that asset's records, and all of them |
| `Portfolio.Held` | src/main/java/com/BigBull/service/PortfolioService.java:42-43 | exactly the positions with a non-null positive quantity are listed |
| `Portfolio.Summaries` | src/main/java/com/BigBull/service/PortfolioService.java:42-49 | a summary that throws can only be a null unboxing |
| `Portfolio.SummariesOfHeld` | src/main/java/com/BigBull/service/PortfolioService.java:36-49 | the walk fails exactly when a held position has a null cost; otherwise it lists one summary per held position, in order, each at its quote |
| `Portfolio.FailureSticks` | src/main/java/com/BigBull/service/PortfolioService.java:42-49 | a position that throws stops the whole summary |
| `Portfolio.PortfolioOf` | src/main/java/com/BigBull/service/PortfolioService.java:28-66 | an unknown user fails; otherwise the wallet's three figures, the held summaries, their value total, the gain, and the percentage over a positive cost or 0 |
| `Portfolio.Basis` | src/main/java/com/BigBull/service/PortfolioService.java:43-47 | a position with a non-negative quantity contributes its cost value |
| `Portfolio.CostBasisUpdate` | src/main/java/com/BigBull/service/PortfolioService.java:42-47 | replacing one position changes the cost total by that position's difference alone |
| `Portfolio.TotalsAreValueAndBasis` | src/main/java/com/BigBull/service/PortfolioService.java:46-47 | the portfolio value is the market value of the held positions, and the cost total their cost basis |
| `Portfolio.TotalGainIsSumOfGains` | src/main/java/com/BigBull/service/PortfolioService.java:52 | value total minus cost total is the sum of the per-position gains |
| `Portfolio.PortfolioGainIsSumOfGains` | src/main/java/com/BigBull/service/PortfolioService.java:52 | the portfolio's total gain is the sum of its positions' unrealized gains |
| `Portfolio.PortfolioService.constructor` | src/main/java/com/BigBull/service/PortfolioService.java:19-26 | the service works on the given store |
| `Portfolio.PortfolioService.GetPortfolioSummary` | src/main/java/com/BigBull/service/PortfolioService.java:28-66 | the loop's result is `PortfolioOf` of the stored wallets and positions |
| `Bookkeeping.BuyMovesCashIntoBasis` | src/main/java/com/BigBull/service/TransactionService.java:62-82 | a BUY keeps balance plus cost basis the same: the cash paid becomes cost basis |
| `Bookkeeping.SellRealizesGain` | src/main/java/com/BigBull/service/TransactionService.java:92-97 | a SELL's cash in, less the cost basis it removes, is units × (price − average cost) |
| `Bookkeeping.SoldBasis` | src/main/java/com/BigBull/service/TransactionService.java:97 | selling units lowers the cost basis by those units at the average cost |
| `Bookkeeping.TwoLotsAverage` | src/main/java/com/BigBull/service/TransactionService.java:76-78 | 10 units at 100 and 10 at 200 average to 150, whether bought or merged |
| `Bookkeeping.FirstBuy` | src/main/java/com/BigBull/service/TransactionService.java:56-82 | 1000 in the wallet, BUY 5 at 100 asked as "buy": 500 left, 5 held at cost 100, the record says "BUY" |
| `Bookkeeping.ThenSell` | src/main/java/com/BigBull/service/TransactionService.java:84-97 | then SELL 5 at 120: 1100 in the wallet, 0 held at cost 100, and a SELL record of 600 |
| `Bookkeeping.OversellRefused` | src/main/java/com/BigBull/service/TransactionService.java:88-90 | selling 50 out of 10 fails, reporting 50 and 10 |
| `Bookkeeping.OverspendRefused` | src/main/java/com/BigBull/service/TransactionService.java:58-60 | buying 1100 worth with 1000 fails, reporting both |
| `Bookkeeping.UnknownTypeRefused` | src/main/java/com/BigBull/service/TransactionService.java:99-101 | type "HOLD" is refused as an invalid type |
| `Bookkeeping.UnknownWalletFirst` | src/main/java/com/BigBull/service/TransactionService.java:49-50 | a missing wallet is reported before the type is looked at |
| `Bookkeeping.ShortPositionSellRefused` | src/main/java/com/BigBull/service/TransactionService.java:84-90 | a SELL of 5 from a position stored at −5 units is refused as insufficient units, reporting 5 and −5 |
| `Bookkeeping.NegativeQuoteOverdraws` | src/main/java/com/BigBull/service/TransactionService.java:84-97 | the quote is not checked: a SELL of 1 at −10 from a wallet of 0 succeeds and leaves a balance of −10 |

## Left out

- Timestamps (`createdAt`, `updatedAt`, `transactionDate`) and the response's message and date strings: clocks and formatting carry no bookkeeping.
- The HTTP quote calls and the parsing of their answers: they are I/O, so quotes are the `Quotes.Market` parameter, and every failure mode is a missing symbol.
- Floating point: numbers are exact reals. Rounding, NaN, infinities and the `%.2f` message format are not modelled.
- `Trading.TransactionService.ExecuteTransaction` and `Trading.PlanTrade`: require (`Trading.TradeDefined`) that a BUY which finds its asset, its quote and its wallet and passes the balance check does not divide by zero in the weighted average, that is, does not buy exactly minus the held quantity of a position whose quantity is non-zero: negative units on a long position, or positive units on a position stored with a negative quantity, which `addOrUpdateAsset` and a negative BUY can both produce. The source computes NaN or an infinity there, and a real cannot stand for that. Every other request, SELL or otherwise, is unconstrained.
- `Assets.AssetService.AddOrUpdateAsset`: requires that the merged quantity is non-zero, for the same reason. It also ignores the id carried by the incoming asset: a new symbol always gets the next identity value. JPA `save` of an entity that carries an id is not modelled.
- `Trading.Run`, `Trading.TradePreservesSolvency` and `Trading.RunConservesCash`: assume non-negative quotes (`Quotes.NonNegative`). The source never checks the quoted price: a negative quote is accepted, and a SELL at it lowers the balance, possibly below zero. Solvency is a property of the books only at non-negative prices. `Bookkeeping.NegativeQuoteOverdraws` shows the overdraft.
- `Assets.AssetService.DeleteAsset`: a position still referenced by ledger records would be refused by the database's foreign key. The model deletes it, and the ledger keeps its `assetId`.
- `Wallets.WalletService.DeductBalance` and `Wallets.WalletService.AddBalance`: take a non-null amount. A null `Double` amount raises a `NullPointerException` in the source, and that path is not modelled.
- `Trading.TransactionService.ExecuteTransaction`: takes non-null username, symbol and type. A null type would be reported as an invalid type in the source.
- Case mapping is ASCII only. `toUpperCase` and `equalsIgnoreCase` on other letters follow Unicode in Java.
- `searchAssets` (a substring, case-insensitive query), `getWalletById`, `getPortfolioList` and the controllers: outside the bookkeeping core.
- Concurrency and `@Transactional` isolation: operations run one at a time. Rollback needs no model, because every failure happens before the first save.
- The asset entity is a value (`AssetEntity.Asset`) rather than an object: the services read a row, change a copy and save it, so aliasing of the JPA-managed instance is not modelled.
- `Repositories.Store.Valid`: that each ledger record's id is its position plus one is a modelling assumption, not a database guarantee. An identity column only promises unique increasing ids; the model's ledger starts empty and is only appended to. `Trading.TransactionService.GetTransactionById` relies on it.
- `WalletRepository.java` is not part of this model. Its `findByUsername` is read as a lookup on the unique `username` column.
