/** Properties that cross the services: where the money of a trade goes in the
    portfolio's figures, and the worked examples of the system's behaviour. */
module Bookkeeping {
  import opened Wrappers
  import opened Text
  import opened Errors
  import opened Quotes
  import opened AssetEntity
  import opened WalletEntity
  import opened TransactionEntity
  import opened Repositories
  import opened Assets
  import opened Trading
  import opened Portfolio

  /** A BUY moves its amount from the wallet balance into the cost basis of the
      positions: the balance plus the cost basis stays the same. */
  lemma BuyMovesCashIntoBasis(assets: seq<Asset>, k: nat, wallet: WalletRow, nextId: int, txType: string,
                              units: int, price: real)
    requires k < |assets| && HeldQuantity(assets[k]) >= 0.0 && units > 0
    requires BuyDefined(assets[k], units) && EqualsIgnoreCase(txType, "BUY")
    requires SettleBuy(k, wallet, assets[k], nextId, txType, units, price).Success?
    ensures var t := SettleBuy(k, wallet, assets[k], nextId, txType, units, price).value;
            t.wallet.balance + CostBasis(assets[k := t.asset]) == wallet.balance + CostBasis(assets)
  {
    var t := SettleBuy(k, wallet, assets[k], nextId, txType, units, price).value;
    CostBasisUpdate(assets, k, t.asset);
    assert Basis(assets[k]) == CostValue(assets[k]);
    assert Basis(t.asset) == CostValue(t.asset);
  }

  /** A SELL takes the sold units out of the cost basis at their average cost and
      pays their market price into the balance: the difference is the realized
      gain, units times the price above the average cost. */
  lemma SellRealizesGain(assets: seq<Asset>, k: nat, wallet: WalletRow, nextId: int, txType: string,
                         units: int, price: real)
    requires k < |assets| && HeldQuantity(assets[k]) >= 0.0
    requires EqualsIgnoreCase(txType, "SELL")
    requires SettleSell(k, wallet, assets[k], nextId, txType, units, price).Success?
    ensures var t := SettleSell(k, wallet, assets[k], nextId, txType, units, price).value;
            (t.wallet.balance - wallet.balance) - (CostBasis(assets) - CostBasis(assets[k := t.asset])) ==
              units as real * (price - HeldCost(assets[k]))
  {
    var t := SettleSell(k, wallet, assets[k], nextId, txType, units, price).value;
    var u, c := units as real, HeldCost(assets[k]);
    CostBasisUpdate(assets, k, t.asset);
    SoldBasis(assets[k], units);
    assert t.wallet.balance - wallet.balance == price * u;
    Distribute(u, price, c);
  }

  lemma Distribute(u: real, p: real, c: real)
    ensures p * u - u * c == u * (p - c)
  {
  }

  /** Selling `units` of a position lowers its contribution to the cost basis by
      those units at its average cost. */
  lemma SoldBasis(a: Asset, units: int)
    requires HeldQuantity(a) >= 0.0 && HeldQuantity(a) >= units as real
    ensures Basis(a) - Basis(Sold(a, units)) == units as real * HeldCost(a)
  {
    var q, c, u := HeldQuantity(a), HeldCost(a), units as real;
    assert Basis(a) == q * c;
    assert Basis(Sold(a, units)) == (q - u) * c;
  }

  const reliance := Asset(1, "RELIANCE", "Reliance Industries", "STOCK", None, None)

  /** Two lots of 10 units at 100 and at 200 average to a cost of 150, whether they
      are bought or merged through `addOrUpdateAsset`. */
  lemma TwoLotsAverage()
    ensures Bought(Bought(reliance, 10, 100.0), 10, 200.0).costPerUnit == Some(150.0)
    ensures Merged(reliance.(quantity := Some(10.0), costPerUnit := Some(100.0)),
                   reliance.(quantity := Some(10.0), costPerUnit := Some(200.0))) ==
              Success(reliance.(quantity := Some(20.0), costPerUnit := Some(150.0)))
  {
    var first := Bought(reliance, 10, 100.0);
    assert first.costPerUnit == Some(100.0) && first.quantity == Some(10.0);
    assert (10.0 * 100.0 + 10.0 * 200.0) / 20.0 == 150.0;
  }

  /** A wallet of 1000 buys 5 units at 100, asking for "buy" in lower case: 500 is
      left, 5 units are held at cost 100, and the record says "BUY". */
  lemma FirstBuy()
    ensures PlanTrade(map["alice" := WalletRow("alice", 1000.0, 0.0, 0.0)], [reliance], 1, "alice", "RELIANCE",
                      "buy", 5, Market(map["RELIANCE" := 100.0], map[])) ==
              Success(Trade(0, WalletRow("alice", 500.0, 500.0, 0.0),
                            reliance.(quantity := Some(5.0), costPerUnit := Some(100.0)),
                            TransactionRow(1, "alice", 1, "BUY", 5, 5.0, 100.0, 100.0, 500.0)))
  {
    assert IndexOfSymbol([reliance], "RELIANCE") == Some(0);
    assert EqualsIgnoreCase("buy", "BUY");
  }

  /** The same 5 units sold later at 120: the balance is 1100, none are left, and
      the position keeps its average cost. */
  lemma ThenSell()
    ensures PlanTrade(map["alice" := WalletRow("alice", 500.0, 500.0, 0.0)],
                      [reliance.(quantity := Some(5.0), costPerUnit := Some(100.0))], 2, "alice", "RELIANCE",
                      "SELL", 5, Market(map["RELIANCE" := 120.0], map[])) ==
              Success(Trade(0, WalletRow("alice", 1100.0, 500.0, 600.0),
                            reliance.(quantity := Some(0.0), costPerUnit := Some(100.0)),
                            TransactionRow(2, "alice", 1, "SELL", 5, 5.0, 120.0, 120.0, 600.0)))
  {
    assert IndexOfSymbol([reliance.(quantity := Some(5.0), costPerUnit := Some(100.0))], "RELIANCE") == Some(0);
    assert !EqualsIgnoreCase("SELL", "BUY");
    assert EqualsIgnoreCase("SELL", "SELL");
  }

  /** Selling 50 units out of 10 fails and reports both numbers. */
  lemma OversellRefused()
    ensures PlanTrade(map["alice" := WalletRow("alice", 1000.0, 0.0, 0.0)],
                      [reliance.(quantity := Some(10.0), costPerUnit := Some(100.0))], 1, "alice", "RELIANCE",
                      "SELL", 50, Market(map["RELIANCE" := 100.0], map[])) ==
              Failure(InsufficientUnits(50, 10.0))
  {
  }

  /** Buying for more than the balance fails and reports the amount and the balance. */
  lemma OverspendRefused()
    ensures PlanTrade(map["alice" := WalletRow("alice", 1000.0, 0.0, 0.0)],
                      [reliance.(quantity := Some(10.0), costPerUnit := Some(100.0))], 1, "alice", "RELIANCE",
                      "BUY", 11, Market(map["RELIANCE" := 100.0], map[])) ==
              Failure(InsufficientBalance(1100.0, 1000.0))
  {
  }

  /** A type other than BUY or SELL is refused once the asset, its price and the
      wallet were all found. */
  lemma UnknownTypeRefused()
    ensures PlanTrade(map["alice" := WalletRow("alice", 1000.0, 0.0, 0.0)],
                      [reliance.(quantity := Some(10.0), costPerUnit := Some(100.0))], 1, "alice", "RELIANCE",
                      "HOLD", 1, Market(map["RELIANCE" := 100.0], map[])) ==
              Failure(InvalidTransactionType("HOLD"))
  {
    assert !EqualsIgnoreCase("HOLD", "SELL") by {
      assert UpperChar("HOLD"[0]) != UpperChar("SELL"[0]);
    }
  }

  /** An unknown wallet is reported before the type is looked at. */
  lemma UnknownWalletFirst()
    ensures PlanTrade(map["alice" := WalletRow("alice", 1000.0, 0.0, 0.0)],
                      [reliance.(quantity := Some(10.0), costPerUnit := Some(100.0))], 1, "bob", "RELIANCE",
                      "HOLD", 1, Market(map["RELIANCE" := 100.0], map[])) ==
              Failure(WalletNotFound("bob"))
  {
  }

  /** A position stored with a negative quantity is sold from like any other: the
      sale is refused for want of units, without any division involved. */
  lemma ShortPositionSellRefused()
    ensures PlanTrade(map["alice" := WalletRow("alice", 1000.0, 0.0, 0.0)],
                      [reliance.(quantity := Some(-5.0), costPerUnit := Some(100.0))], 1, "alice", "RELIANCE",
                      "SELL", 5, Market(map["RELIANCE" := 100.0], map[])) ==
              Failure(InsufficientUnits(5, -5.0))
  {
    assert !EqualsIgnoreCase("SELL", "BUY");
    assert EqualsIgnoreCase("SELL", "SELL");
  }

  /** The quoted price is not checked: a SELL at a negative quote succeeds and
      takes the balance below zero. */
  lemma NegativeQuoteOverdraws()
    ensures var r := PlanTrade(map["alice" := WalletRow("alice", 0.0, 0.0, 0.0)],
                               [reliance.(quantity := Some(5.0), costPerUnit := Some(100.0))], 1, "alice",
                               "RELIANCE", "SELL", 1, Market(map["RELIANCE" := -10.0], map[]));
            r.Success? && r.value.wallet.balance == -10.0
  {
    assert !EqualsIgnoreCase("SELL", "BUY");
    assert EqualsIgnoreCase("SELL", "SELL");
  }
}
