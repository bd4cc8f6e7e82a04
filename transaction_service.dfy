/** The transaction service: one BUY or SELL against the stored wallet and asset
    position at the quoted price, committed together with its ledger record, and
    the ledger queries. */
module Trading {
  import opened Wrappers
  import opened Text
  import opened Seqs
  import opened Errors
  import opened Quotes
  import opened AssetEntity
  import opened WalletEntity
  import opened TransactionEntity
  import opened Repositories
  import opened Wallets

  datatype TransactionResponse = TransactionResponse(
    transactionId: int,
    username: string,
    asset: Asset,
    txType: string,
    units: int,
    price: real,
    totalAmount: real,
    walletBalance: real,
    assetQuantity: real)

  /** The weighted average of a BUY divides by the new quantity; it is defined
      unless the position is non-empty and the purchase brings it to exactly 0. */
  predicate BuyDefined(a: Asset, units: int) {
    HeldQuantity(a) == 0.0 || HeldQuantity(a) + units as real != 0.0
  }

  /** The position after buying `units` at `price`: an empty position (null or 0)
      takes the price as its cost; otherwise the cost is the weighted average, the
      one that adds the purchase's cost to the position's total cost value. */
  function Bought(a: Asset, units: int, price: real): (b: Asset)
    requires BuyDefined(a, units)
    ensures b.id == a.id && b.symbol == a.symbol && b.name == a.name && b.assetType == a.assetType
    ensures b.quantity == Some(HeldQuantity(a) + units as real) && b.costPerUnit.Some?
    ensures HeldQuantity(a) == 0.0 ==> b.costPerUnit == Some(price)
    ensures CostValue(b) == CostValue(a) + units as real * price
  {
    var currentQuantity := HeldQuantity(a);
    var currentCost := HeldCost(a);
    if currentQuantity == 0.0 then
      a.(costPerUnit := Some(price), quantity := Some(units as real))
    else
      var totalValue := currentQuantity * currentCost + units as real * price;
      var newQuantity := currentQuantity + units as real;
      a.(costPerUnit := Some(totalValue / newQuantity), quantity := Some(newQuantity))
  }

  /** The position after selling `units`: fewer units, the same cost per unit, and
      the row kept even when nothing is left. */
  function Sold(a: Asset, units: int): (b: Asset)
    ensures b.id == a.id && b.symbol == a.symbol && b.name == a.name && b.assetType == a.assetType
    ensures b.quantity == Some(HeldQuantity(a) - units as real) && b.costPerUnit == a.costPerUnit
  {
    a.(quantity := Some(HeldQuantity(a) - units as real))
  }

  /** What a successful trade writes: the wallet row, the asset row at position
      `index`, and the new ledger record. */
  datatype Trade = Trade(index: nat, wallet: WalletRow, asset: Asset, record: TransactionRow)

  /** The trade can be computed without dividing by zero: the weighted average is
      only reached by a BUY on a known asset with a quote, a known wallet and a
      balance that covers the amount, and only such a BUY is constrained. */
  predicate TradeDefined(wallets: map<string, WalletRow>, assets: seq<Asset>, username: string, symbol: string,
                         txType: string, units: int, market: Market) {
    var found := IndexOfSymbol(assets, symbol);
    found.Some? && Quote(market, symbol, assets[found.value].assetType).Some? && username in wallets &&
    EqualsIgnoreCase(txType, "BUY") &&
    wallets[username].balance >= Quote(market, symbol, assets[found.value].assetType).value * units as real ==>
      BuyDefined(assets[found.value], units)
  }

  /** The cash a record moved into its wallet: a BUY takes its amount out, a SELL
      brings it in. */
  function CashMoved(t: TransactionRow): real {
    if t.txType == "BUY" then -t.totalAmount else t.totalAmount
  }

  /** A BUY at `price` against `wallet`: refused when the balance is below the
      amount, which lets a purchase of exactly the balance through. */
  function SettleBuy(k: nat, wallet: WalletRow, asset: Asset, nextId: int, txType: string, units: int,
                     price: real): (r: Result<Trade, Error>)
    requires wallet.balance >= price * units as real ==> BuyDefined(asset, units)
    requires EqualsIgnoreCase(txType, "BUY")
    ensures r.Failure? <==> wallet.balance < price * units as real
    ensures r.Failure? ==> r.error == InsufficientBalance(price * units as real, wallet.balance)
    ensures r.Success? ==>
              && r.value == Trade(k, Debited(wallet, price * units as real), Bought(asset, units, price), r.value.record)
              && r.value.record == TransactionRow(nextId, wallet.username, asset.id, "BUY", units, units as real,
                                                  price, price, price * units as real)
  {
    var totalAmount := price * units as real;
    if wallet.balance < totalAmount then
      Failure(InsufficientBalance(totalAmount, wallet.balance))
    else
      UpperOfMatch(txType, "BUY");
      var record := TransactionRow(nextId, wallet.username, asset.id, ToUpper(txType), units, units as real,
                                   price, price, totalAmount);
      Success(Trade(k, Debited(wallet, totalAmount), Bought(asset, units, price), record))
  }

  /** A SELL at `price` out of `asset`: refused when fewer units are held than
      requested, which lets a sale of the whole position through. */
  function SettleSell(k: nat, wallet: WalletRow, asset: Asset, nextId: int, txType: string, units: int,
                      price: real): (r: Result<Trade, Error>)
    requires EqualsIgnoreCase(txType, "SELL")
    ensures r.Failure? <==> HeldQuantity(asset) < units as real
    ensures r.Failure? ==> r.error == InsufficientUnits(units, HeldQuantity(asset))
    ensures r.Success? ==>
              && r.value == Trade(k, Credited(wallet, price * units as real), Sold(asset, units), r.value.record)
              && r.value.record == TransactionRow(nextId, wallet.username, asset.id, "SELL", units, units as real,
                                                  price, price, price * units as real)
  {
    var totalAmount := price * units as real;
    if HeldQuantity(asset) < units as real then
      Failure(InsufficientUnits(units, HeldQuantity(asset)))
    else
      UpperOfMatch(txType, "SELL");
      var record := TransactionRow(nextId, wallet.username, asset.id, ToUpper(txType), units, units as real,
                                   price, price, totalAmount);
      Success(Trade(k, Credited(wallet, totalAmount), Sold(asset, units), record))
  }

  /** The trade `executeTransaction` performs, or the first check that stops it.
      The checks run in the source's order: asset, price, wallet, then the type
      with its balance or holdings check. */
  function PlanTrade(wallets: map<string, WalletRow>, assets: seq<Asset>, nextId: int, username: string,
                     symbol: string, txType: string, units: int, market: Market): (r: Result<Trade, Error>)
    requires TradeDefined(wallets, assets, username, symbol, txType, units, market)
    ensures IndexOfSymbol(assets, symbol).None? ==> r == Failure(AssetNotFound(symbol))
    ensures var found := IndexOfSymbol(assets, symbol);
            found.Some? && Quote(market, symbol, assets[found.value].assetType).None? ==>
              r == Failure(PriceUnavailable(symbol))
    ensures var found := IndexOfSymbol(assets, symbol);
            found.Some? && Quote(market, symbol, assets[found.value].assetType).Some? && username !in wallets ==>
              r == Failure(WalletNotFound(username))
    ensures var found := IndexOfSymbol(assets, symbol);
            found.Some? && Quote(market, symbol, assets[found.value].assetType).Some? && username in wallets &&
            !EqualsIgnoreCase(txType, "BUY") && !EqualsIgnoreCase(txType, "SELL") ==>
              r == Failure(InvalidTransactionType(txType))
    ensures var found := IndexOfSymbol(assets, symbol);
            found.Some? && Quote(market, symbol, assets[found.value].assetType).Some? && username in wallets &&
            EqualsIgnoreCase(txType, "BUY") ==>
              r == SettleBuy(found.value, wallets[username], assets[found.value], nextId, txType, units,
                             Quote(market, symbol, assets[found.value].assetType).value)
    ensures var found := IndexOfSymbol(assets, symbol);
            found.Some? && Quote(market, symbol, assets[found.value].assetType).Some? && username in wallets &&
            !EqualsIgnoreCase(txType, "BUY") && EqualsIgnoreCase(txType, "SELL") ==>
              r == SettleSell(found.value, wallets[username], assets[found.value], nextId, txType, units,
                              Quote(market, symbol, assets[found.value].assetType).value)
    ensures r.Success? ==>
              IndexOfSymbol(assets, symbol) == Some(r.value.index) && username in wallets &&
              Quote(market, symbol, assets[r.value.index].assetType).Some? &&
              (EqualsIgnoreCase(txType, "BUY") || EqualsIgnoreCase(txType, "SELL"))
  {
    match IndexOfSymbol(assets, symbol)
    case None => Failure(AssetNotFound(symbol))
    case Some(k) =>
      var asset := assets[k];
      match Quote(market, symbol, asset.assetType)
      case None => Failure(PriceUnavailable(symbol))
      case Some(livePrice) =>
        if username !in wallets then Failure(WalletNotFound(username))
        else if EqualsIgnoreCase(txType, "BUY") then
          SettleBuy(k, wallets[username], asset, nextId, txType, units, livePrice)
        else if EqualsIgnoreCase(txType, "SELL") then
          SettleSell(k, wallets[username], asset, nextId, txType, units, livePrice)
        else
          Failure(InvalidTransactionType(txType))
  }

  /** Every successful trade moves exactly its recorded amount between the wallet's
      balance and its invested or withdrawn total: the balance changes by the cash
      the record moved, and the net contribution stays the same. */
  lemma TradeConservesCash(wallets: map<string, WalletRow>, assets: seq<Asset>, nextId: int, username: string,
                           symbol: string, txType: string, units: int, market: Market)
    requires TradeDefined(wallets, assets, username, symbol, txType, units, market)
    requires PlanTrade(wallets, assets, nextId, username, symbol, txType, units, market).Success?
    ensures var t := PlanTrade(wallets, assets, nextId, username, symbol, txType, units, market).value;
            && username in wallets
            && t.wallet.username == wallets[username].username
            && t.record.username == wallets[username].username
            && t.wallet.balance == wallets[username].balance + CashMoved(t.record)
            && NetContribution(t.wallet) == NetContribution(wallets[username])
  {
  }

  /** The response for a trade: any failure is wrapped as "Transaction failed";
      a success reports the stored record and the post-trade balance and quantity. */
  function Respond(username: string, units: int, plan: Result<Trade, Error>): (r: Result<TransactionResponse, Error>)
    ensures plan.Failure? ==> r == Failure(TransactionFailed(plan.error))
    ensures plan.Success? && plan.value.asset.quantity.Some? ==>
              r.Success? && r.value.transactionId == plan.value.record.id &&
              r.value.walletBalance == plan.value.wallet.balance &&
              Some(r.value.assetQuantity) == plan.value.asset.quantity
  {
    match plan
    case Failure(e) => Failure(TransactionFailed(e))
    case Success(t) =>
      Success(TransactionResponse(t.record.id, username, t.asset, t.record.txType, units, t.record.price,
                                  t.record.totalAmount, t.wallet.balance, HeldQuantity(t.asset)))
  }

  /** The contents of the three repositories. */
  datatype Books = Books(wallets: map<string, WalletRow>, assets: seq<Asset>, transactions: seq<TransactionRow>)

  /** The books after a planned trade: a success writes its three rows, a failure
      writes nothing. */
  function AfterTrade(b: Books, plan: Result<Trade, Error>): Books {
    match plan
    case Failure(_) => b
    case Success(t) =>
      if t.index < |b.assets| && t.wallet.username in b.wallets then
        Books(b.wallets[t.wallet.username := t.wallet], b.assets[t.index := t.asset], b.transactions + [t.record])
      else b  // not reached on books whose wallets are keyed by username: see PlanTrade's last ensures
  }

  /** One trade request. */
  datatype Order = Order(username: string, symbol: string, txType: string, units: int)

  /** No position holds a negative quantity and no wallet a negative balance. */
  ghost predicate Solvent(b: Books) {
    (forall k :: 0 <= k < |b.assets| ==> HeldQuantity(b.assets[k]) >= 0.0) &&
    (forall u :: u in b.wallets ==> b.wallets[u].balance >= 0.0)
  }

  /** Wallet rows are stored under their own usernames. */
  ghost predicate KeyedWallets(b: Books) {
    forall u :: u in b.wallets ==> b.wallets[u].username == u
  }

  /** Each order executed in turn against the books, as `executeTransaction` runs
      them one after another. */
  ghost function Run(b: Books, market: Market, orders: seq<Order>): (r: Books)
    requires Solvent(b) && KeyedWallets(b) && NonNegative(market)
    requires forall k :: 0 <= k < |orders| ==> orders[k].units > 0
    ensures Solvent(r) && KeyedWallets(r)
    decreases |orders|
  {
    if orders == [] then b
    else
      var o := orders[0];
      var plan := PlanTrade(b.wallets, b.assets, |b.transactions| + 1, o.username, o.symbol, o.txType, o.units, market);
      TradePreservesSolvency(b, market, o);
      Run(AfterTrade(b, plan), market, orders[1..])
  }

  /** With positive units no order on books without a negative quantity reaches a
      division by zero: a purchase cannot bring a non-empty position to exactly 0. */
  lemma TradeIsDefined(b: Books, market: Market, o: Order)
    requires forall k :: 0 <= k < |b.assets| ==> HeldQuantity(b.assets[k]) >= 0.0
    requires o.units > 0
    ensures TradeDefined(b.wallets, b.assets, o.username, o.symbol, o.txType, o.units, market)
  {
    var found := IndexOfSymbol(b.assets, o.symbol);
    if found.Some? {
      assert HeldQuantity(b.assets[found.value]) >= 0.0;
    }
  }

  /** With positive units, a trade on solvent books is defined and keeps them solvent. */
  lemma TradePreservesSolvency(b: Books, market: Market, o: Order)
    requires Solvent(b) && KeyedWallets(b) && NonNegative(market) && o.units > 0
    ensures TradeDefined(b.wallets, b.assets, o.username, o.symbol, o.txType, o.units, market)
    ensures Solvent(AfterTrade(b, PlanTrade(b.wallets, b.assets, |b.transactions| + 1, o.username, o.symbol,
                                            o.txType, o.units, market)))
    ensures KeyedWallets(AfterTrade(b, PlanTrade(b.wallets, b.assets, |b.transactions| + 1, o.username, o.symbol,
                                                 o.txType, o.units, market)))
  {
    TradeIsDefined(b, market, o);
    var plan := PlanTrade(b.wallets, b.assets, |b.transactions| + 1, o.username, o.symbol, o.txType, o.units, market);
    if plan.Success? {
      var t := plan.value;
      var a := b.assets[t.index];
      var w := b.wallets[o.username];
      var price := Quote(market, o.symbol, a.assetType).value;
      assert price >= 0.0;
      assert price * o.units as real >= 0.0;
      if EqualsIgnoreCase(o.txType, "BUY") {
        assert t.asset == Bought(a, o.units, price) && t.wallet == Debited(w, price * o.units as real);
      } else {
        assert t.asset == Sold(a, o.units) && t.wallet == Credited(w, price * o.units as real);
      }
      var b' := AfterTrade(b, plan);
      forall k | 0 <= k < |b'.assets| ensures HeldQuantity(b'.assets[k]) >= 0.0 {
        if k == t.index {
          assert b'.assets[k] == t.asset;
        } else {
          assert b'.assets[k] == b.assets[k];
        }
      }
    }
  }

  /** The net cash a ledger moved into `username`'s wallet. */
  function CashFlow(records: seq<TransactionRow>, username: string): real
    decreases |records|
  {
    if records == [] then 0.0
    else (if records[0].username == username then CashMoved(records[0]) else 0.0) + CashFlow(records[1..], username)
  }

  /** One step of `Run` for the wallet of `username`: a failed trade leaves the
      books as they were; a successful one appends its record and moves the
      wallet's balance by the record's cash when the record is that wallet's. */
  lemma StepConservesCash(b: Books, market: Market, o: Order, username: string)
    requires Solvent(b) && KeyedWallets(b) && NonNegative(market) && o.units > 0
    requires username in b.wallets
    ensures TradeDefined(b.wallets, b.assets, o.username, o.symbol, o.txType, o.units, market)
    ensures var plan := PlanTrade(b.wallets, b.assets, |b.transactions| + 1, o.username, o.symbol, o.txType,
                                  o.units, market);
            var b' := AfterTrade(b, plan);
            && username in b'.wallets
            && (plan.Failure? ==> b' == b)
            && (plan.Success? ==>
                  && b'.transactions == b.transactions + [plan.value.record]
                  && b'.wallets[username].balance ==
                       b.wallets[username].balance +
                       (if plan.value.record.username == username then CashMoved(plan.value.record) else 0.0))
  {
    TradePreservesSolvency(b, market, o);
    var plan := PlanTrade(b.wallets, b.assets, |b.transactions| + 1, o.username, o.symbol, o.txType, o.units, market);
    if plan.Success? {
      TradeConservesCash(b.wallets, b.assets, |b.transactions| + 1, o.username, o.symbol, o.txType, o.units, market);
    }
  }

  /** A ledger that extends `ledger + [record]` extends `ledger`, and the cash its
      new part moved is that record's followed by the rest. */
  lemma LedgerExtends(ledger: seq<TransactionRow>, record: TransactionRow, r: seq<TransactionRow>, username: string)
    requires |ledger| + 1 <= |r| && r[..|ledger| + 1] == ledger + [record]
    ensures r[..|ledger|] == ledger
    ensures CashFlow(r[|ledger|..], username) ==
              (if record.username == username then CashMoved(record) else 0.0) + CashFlow(r[|ledger| + 1..], username)
  {
    var n := |ledger|;
    assert r[..n] == r[..n + 1][..n];
    assert r[n] == record;
    assert r[n..][1..] == r[n + 1..];
  }

  /** Conservation over any sequence of trades: each wallet's final balance is its
      initial balance, minus the amounts of the BUYs and plus the amounts of the
      SELLs recorded for it. The ledger only grows, and no wallet disappears. */
  lemma {:induction false} RunConservesCash(b: Books, market: Market, orders: seq<Order>, username: string)
    requires Solvent(b) && KeyedWallets(b) && NonNegative(market)
    requires forall k :: 0 <= k < |orders| ==> orders[k].units > 0
    requires username in b.wallets
    ensures var r := Run(b, market, orders);
            && |b.transactions| <= |r.transactions|
            && r.transactions[..|b.transactions|] == b.transactions
            && username in r.wallets
            && r.wallets[username].balance ==
                 b.wallets[username].balance + CashFlow(r.transactions[|b.transactions|..], username)
    decreases |orders|
  {
    var r := Run(b, market, orders);
    if orders == [] {
      assert r.transactions[|b.transactions|..] == [];
    } else {
      var o := orders[0];
      var plan := PlanTrade(b.wallets, b.assets, |b.transactions| + 1, o.username, o.symbol, o.txType, o.units, market);
      TradePreservesSolvency(b, market, o);
      StepConservesCash(b, market, o, username);
      var b' := AfterTrade(b, plan);
      assert r == Run(b', market, orders[1..]);
      RunConservesCash(b', market, orders[1..], username);
      var n, n' := |b.transactions|, |b'.transactions|;
      if plan.Success? {
        LedgerExtends(b.transactions, plan.value.record, r.transactions, username);
      } else {
        assert b' == b;
      }
    }
  }

  /** The ledger entry `executeTransaction` fills in setter by setter before
      saving it; the id is left for the repository to assign. */
  method NewRecord(username: string, asset: Asset, txType: string, units: int, price: real, totalAmount: real)
    returns (t: Transaction)
    ensures fresh(t)
    ensures t.id.None? && t.username == Some(username) && t.asset == Some(asset) && t.txType == Some(txType)
    ensures t.units == Some(units) && t.quantity == Some(units as real)
    ensures t.price == Some(price) && t.pricePerUnit == Some(price) && t.totalAmount == Some(totalAmount)
  {
    t := new Transaction();
    t.SetUsername(Some(username));
    t.SetAsset(Some(asset));
    t.SetType(Some(txType));
    t.SetUnits(Some(units));
    t.SetQuantity(Some(units as real));
    t.SetPrice(Some(price));
    t.SetPricePerUnit(Some(price));
    t.SetTotalAmount(Some(totalAmount));
  }

  class TransactionService {
    const repos: Store

    constructor (repos: Store)
      ensures this.repos == repos
    {
      this.repos := repos;
    }

    /** `executeTransaction`: looks up the asset, its live price and the wallet,
        applies the BUY or SELL to the wallet and the position, saves both, then
        builds the ledger record field by field and saves it. Any failure changes
        nothing. */
    method ExecuteTransaction(username: string, symbol: string, txType: string, units: int, market: Market)
      returns (r: Result<TransactionResponse, Error>)
      requires repos.Valid()
      requires TradeDefined(repos.wallets, repos.assets, username, symbol, txType, units, market)
      modifies repos
      ensures repos.Valid()
      ensures var plan := PlanTrade(old(repos.wallets), old(repos.assets), |old(repos.transactions)| + 1,
                                    username, symbol, txType, units, market);
              && r == Respond(username, units, plan)
              && Books(repos.wallets, repos.assets, repos.transactions) ==
                   AfterTrade(Books(old(repos.wallets), old(repos.assets), old(repos.transactions)), plan)
      ensures repos.nextAssetId == old(repos.nextAssetId)
    {
      ghost var plan := PlanTrade(repos.wallets, repos.assets, |repos.transactions| + 1,
                                  username, symbol, txType, units, market);
      var found := IndexOfSymbol(repos.assets, symbol);
      if found.None? {
        return Failure(TransactionFailed(AssetNotFound(symbol)));
      }
      var k := found.value;
      var asset := repos.assets[k];
      var quote := Quote(market, symbol, asset.assetType);
      if quote.None? {
        return Failure(TransactionFailed(PriceUnavailable(symbol)));
      }
      var livePrice := quote.value;
      if username !in repos.wallets {
        return Failure(TransactionFailed(WalletNotFound(username)));
      }
      var wallet := repos.wallets[username];
      var totalAmount := livePrice * units as real;
      if EqualsIgnoreCase(txType, "BUY") {
        assert plan == SettleBuy(k, wallet, asset, |repos.transactions| + 1, txType, units, livePrice);
        if wallet.balance < totalAmount {
          assert plan.Failure? && plan.error == InsufficientBalance(totalAmount, wallet.balance);
          return Failure(TransactionFailed(InsufficientBalance(totalAmount, wallet.balance)));
        }
        wallet := wallet.(balance := wallet.balance - totalAmount);
        wallet := wallet.(totalInvested := wallet.totalInvested + totalAmount);
        var currentQuantity := HeldQuantity(asset);
        var currentCost := HeldCost(asset);
        if currentQuantity == 0.0 {
          asset := asset.(costPerUnit := Some(livePrice));
          asset := asset.(quantity := Some(units as real));
        } else {
          var totalValue := currentQuantity * currentCost + units as real * livePrice;
          var newQuantity := currentQuantity + units as real;
          var newAvgCost := totalValue / newQuantity;
          assert Bought(asset, units, livePrice).costPerUnit.value == newAvgCost;
          asset := asset.(costPerUnit := Some(newAvgCost));
          asset := asset.(quantity := Some(newQuantity));
        }
        assert plan.value.wallet == wallet && plan.value.asset == asset;
      } else if EqualsIgnoreCase(txType, "SELL") {
        var currentQuantity := HeldQuantity(asset);
        if currentQuantity < units as real {
          return Failure(TransactionFailed(InsufficientUnits(units, currentQuantity)));
        }
        wallet := wallet.(balance := wallet.balance + totalAmount);
        wallet := wallet.(totalWithdrawn := wallet.totalWithdrawn + totalAmount);
        asset := asset.(quantity := Some(currentQuantity - units as real));
        assert plan == SettleSell(k, repos.wallets[username], repos.assets[k], |repos.transactions| + 1, txType,
                                  units, livePrice);
        assert plan.value.wallet == wallet && plan.value.asset == asset;
      } else {
        return Failure(TransactionFailed(InvalidTransactionType(txType)));
      }
      repos.SaveWallet(wallet);
      repos.SaveAsset(k, asset);

      var t := NewRecord(username, asset, ToUpper(txType), units, livePrice, totalAmount);
      var row := repos.SaveTransaction(t);
      assert row == plan.value.record;

      r := Success(TransactionResponse(row.id, username, asset, ToUpper(txType), units, livePrice, totalAmount,
                                       wallet.balance, asset.quantity.value));
    }

    function GetAllTransactions(): (r: seq<TransactionRow>)
      reads repos
      ensures r == repos.transactions
    {
      repos.transactions
    }

    /** `getTransactionById`: ids are ledger positions plus one, so exactly the
        ids from 1 to the ledger's length are found. */
    function GetTransactionById(id: int): (r: Result<TransactionRow, Error>)
      requires repos.Valid()
      reads repos
      ensures r.Success? <==> 1 <= id <= |repos.transactions|
      ensures r.Success? ==> r.value == repos.transactions[id - 1]
      ensures r.Failure? ==> r.error == TransactionNotFound(id)
    {
      assert 1 <= id <= |repos.transactions| ==> repos.transactions[id - 1].id == id;
      match FirstWhere(repos.transactions, (t: TransactionRow) => t.id == id)
      case None => Failure(TransactionNotFound(id))
      case Some(k) => Success(repos.transactions[k])
    }

    /** `getTransactionsByUsername`: that user's records, in ledger order. */
    function GetTransactionsByUsername(username: string): (r: seq<TransactionRow>)
      reads repos
      ensures forall k :: 0 <= k < |r| ==> r[k] in repos.transactions && r[k].username == username
      ensures forall k :: 0 <= k < |repos.transactions| && repos.transactions[k].username == username ==>
                repos.transactions[k] in r
    {
      Filter(repos.transactions, (t: TransactionRow) => t.username == username)
    }

    /** `getTransactionsByAssetId`: the records of that asset, in ledger order. */
    function GetTransactionsByAssetId(assetId: int): (r: seq<TransactionRow>)
      reads repos
      ensures forall k :: 0 <= k < |r| ==> r[k] in repos.transactions && r[k].assetId == assetId
      ensures forall k :: 0 <= k < |repos.transactions| && repos.transactions[k].assetId == assetId ==>
                repos.transactions[k] in r
    {
      Filter(repos.transactions, (t: TransactionRow) => t.assetId == assetId)
    }
  }
}
