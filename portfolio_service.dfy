/** The portfolio service: one user's wallet figures together with the valuation
    of every held position and the totals over them. */
module Portfolio {
  import opened Wrappers
  import opened Seqs
  import opened Errors
  import opened Quotes
  import opened AssetEntity
  import opened WalletEntity
  import opened Repositories
  import opened Assets

  datatype PortfolioSummary = PortfolioSummary(
    username: string,
    currentBalance: real,
    totalInvested: real,
    totalWithdrawn: real,
    portfolioValue: real,
    totalGain: real,
    gainPercentage: real,
    assets: seq<AssetSummary>)

  /** The positions the summary lists: a non-null, positive quantity. */
  function Held(assets: seq<Asset>): (r: seq<Asset>)
    ensures forall k :: 0 <= k < |r| ==> r[k] in assets && IsHeld(r[k])
    ensures forall k :: 0 <= k < |assets| && IsHeld(assets[k]) ==> assets[k] in r
  {
    Filter(assets, (a: Asset) => IsHeld(a))
  }

  /** The summary of one position at its quote, 0.0 when the quote is unavailable. */
  function SummaryAt(a: Asset, market: Market): Result<AssetSummary, Error> {
    GetAssetSummary(a, QuoteOrZero(market, a.symbol, a.assetType))
  }

  /** The summaries of the held positions in repository order. A held position
      with a null cost throws, and the whole summary with it. */
  function Summaries(assets: seq<Asset>, market: Market): (r: Result<seq<AssetSummary>, Error>)
    ensures r.Failure? ==> r.error == NullValue
    decreases |assets|
  {
    if assets == [] then Success([])
    else Extend(Summaries(assets[..|assets| - 1], market), assets[|assets| - 1], market)
  }

  /** One step of the loop: a held position appends its summary, or stops the
      walk when it throws; any other position is skipped. */
  function Extend(prefix: Result<seq<AssetSummary>, Error>, a: Asset, market: Market): Result<seq<AssetSummary>, Error> {
    match prefix
    case Failure(e) => Failure(e)
    case Success(done) =>
      if IsHeld(a) then
        match SummaryAt(a, market)
        case Failure(e) => Failure(e)
        case Success(s) => Success(done + [s])
      else Success(done)
  }

  lemma SummariesOfPrefix(assets: seq<Asset>, i: nat, market: Market)
    requires i < |assets|
    ensures Summaries(assets[..i + 1], market) == Extend(Summaries(assets[..i], market), assets[i], market)
  {
    assert assets[..i + 1][..i] == assets[..i];
  }

  /** Once a prefix of the walk has failed, the whole walk fails. */
  lemma {:induction false} FailureSticks(assets: seq<Asset>, n: nat, market: Market)
    requires n <= |assets|
    requires Summaries(assets[..n], market).Failure?
    ensures Summaries(assets, market).Failure?
    decreases |assets|
  {
    if n == |assets| {
      assert assets[..n] == assets;
    } else {
      var init := assets[..|assets| - 1];
      assert init[..n] == assets[..n];
      FailureSticks(init, n, market);
    }
  }

  /** The summary fails exactly when some held position has a null cost; otherwise
      it has one entry per held position, in order, each that position's summary. */
  lemma {:induction false} SummariesOfHeld(assets: seq<Asset>, market: Market)
    ensures var r := Summaries(assets, market);
            r.Failure? <==> exists k :: 0 <= k < |assets| && IsHeld(assets[k]) && assets[k].costPerUnit.None?
    ensures var r := Summaries(assets, market);
            r.Success? ==>
              && |r.value| == |Held(assets)|
              && forall k :: 0 <= k < |r.value| ==> SummaryAt(Held(assets)[k], market) == Success(r.value[k])
    decreases |assets|
  {
    if assets != [] {
      var init, a := assets[..|assets| - 1], assets[|assets| - 1];
      assert assets == init + [a];
      SummariesOfHeld(init, market);
      var r := Summaries(assets, market);
      assert Held(assets) == if IsHeld(a) then Held(init) + [a] else Held(init);
      if Summaries(init, market).Failure? {
        var k :| 0 <= k < |init| && IsHeld(init[k]) && init[k].costPerUnit.None?;
        assert assets[k] == init[k];
      } else if !IsHeld(a) || SummaryAt(a, market).Success? {
        assert !(IsHeld(a) && a.costPerUnit.None?);
        forall k | 0 <= k < |assets| ensures !(IsHeld(assets[k]) && assets[k].costPerUnit.None?) {
          if k < |init| {
            assert assets[k] == init[k];
          }
        }
      }
    }
  }

  /** Totals over summaries, accumulated in list order. */
  function SumValue(s: seq<AssetSummary>): real
    decreases |s|
  {
    if s == [] then 0.0 else SumValue(s[..|s| - 1]) + s[|s| - 1].totalValue
  }

  function SumCost(s: seq<AssetSummary>): real
    decreases |s|
  {
    if s == [] then 0.0 else SumCost(s[..|s| - 1]) + s[|s| - 1].totalCostValue
  }

  function SumGain(s: seq<AssetSummary>): real
    decreases |s|
  {
    if s == [] then 0.0 else SumGain(s[..|s| - 1]) + s[|s| - 1].unrealizedGain
  }

  lemma SumsOfSnoc(s: seq<AssetSummary>, x: AssetSummary)
    ensures SumValue(s + [x]) == SumValue(s) + x.totalValue
    ensures SumCost(s + [x]) == SumCost(s) + x.totalCostValue
  {
    assert (s + [x])[..|s|] == s;
  }

  /** `getPortfolioSummary` as a function of the stored wallets and positions: an
      unknown user fails; otherwise the wallet's three figures, the summaries of
      the held positions, their value and cost totals, and the gain over them. */
  function PortfolioOf(wallets: map<string, WalletRow>, assets: seq<Asset>, username: string, market: Market)
    : (r: Result<PortfolioSummary, Error>)
    ensures username !in wallets ==> r == Failure(WalletNotFound(username))
    ensures username in wallets ==> (r.Failure? <==> Summaries(assets, market).Failure?)
    ensures r.Failure? && username in wallets ==> r.error == NullValue
    ensures r.Success? ==>
              && username in wallets
              && r.value.username == username
              && r.value.currentBalance == wallets[username].balance
              && r.value.totalInvested == wallets[username].totalInvested
              && r.value.totalWithdrawn == wallets[username].totalWithdrawn
              && Summaries(assets, market) == Success(r.value.assets)
              && r.value.portfolioValue == SumValue(r.value.assets)
              && r.value.totalGain == SumValue(r.value.assets) - SumCost(r.value.assets)
              && (SumCost(r.value.assets) > 0.0 ==>
                    r.value.gainPercentage == r.value.totalGain / SumCost(r.value.assets) * 100.0)
              && (SumCost(r.value.assets) <= 0.0 ==> r.value.gainPercentage == 0.0)
  {
    if username !in wallets then Failure(WalletNotFound(username))
    else
      var wallet := wallets[username];
      match Summaries(assets, market)
      case Failure(e) => Failure(e)
      case Success(summaries) =>
        var portfolioValue := SumValue(summaries);
        var totalCostValue := SumCost(summaries);
        var totalGain := portfolioValue - totalCostValue;
        var gainPercentage := if totalCostValue > 0.0 then (totalGain / totalCostValue) * 100.0 else 0.0;
        Success(PortfolioSummary(username, wallet.balance, wallet.totalInvested, wallet.totalWithdrawn,
                                 portfolioValue, totalGain, gainPercentage, summaries))
  }

  /** The market value of the held positions at their quotes (0.0 when unavailable). */
  function MarketValue(assets: seq<Asset>, market: Market): real
    decreases |assets|
  {
    if assets == [] then 0.0
    else
      var a := assets[|assets| - 1];
      MarketValue(assets[..|assets| - 1], market) +
        (if IsHeld(a) then QuoteOrZero(market, a.symbol, a.assetType) * HeldQuantity(a) else 0.0)
  }

  /** What one position adds to the cost basis: its cost value when it is held. */
  function Basis(a: Asset): (r: real)
    ensures HeldQuantity(a) >= 0.0 ==> r == CostValue(a)
  {
    if IsHeld(a) then CostValue(a) else 0.0
  }

  /** The cost basis of the held positions: quantity times average cost. */
  function CostBasis(assets: seq<Asset>): real
    decreases |assets|
  {
    if assets == [] then 0.0
    else CostBasis(assets[..|assets| - 1]) + Basis(assets[|assets| - 1])
  }

  /** Replacing one position changes the cost basis by the difference of the two
      positions' contributions alone. */
  lemma {:induction false} CostBasisUpdate(assets: seq<Asset>, k: nat, b: Asset)
    requires k < |assets|
    ensures CostBasis(assets[k := b]) == CostBasis(assets) - Basis(assets[k]) + Basis(b)
    decreases |assets|
  {
    var n := |assets| - 1;
    if k < n {
      assert assets[k := b][..n] == assets[..n][k := b];
      CostBasisUpdate(assets[..n], k, b);
    } else {
      assert assets[k := b][..n] == assets[..n];
    }
  }

  /** The portfolio value is the market value of the held positions, and the cost
      total their cost basis: positions that are sold out or null contribute
      nothing. */
  lemma {:induction false} TotalsAreValueAndBasis(assets: seq<Asset>, market: Market)
    requires Summaries(assets, market).Success?
    ensures SumValue(Summaries(assets, market).value) == MarketValue(assets, market)
    ensures SumCost(Summaries(assets, market).value) == CostBasis(assets)
    decreases |assets|
  {
    if assets != [] {
      var init, a := assets[..|assets| - 1], assets[|assets| - 1];
      assert Summaries(init, market).Success?;
      TotalsAreValueAndBasis(init, market);
      var prefix := Summaries(init, market).value;
      if IsHeld(a) {
        var s := SummaryAt(a, market).value;
        assert Summaries(assets, market).value == prefix + [s];
        SumsOfSnoc(prefix, s);
        HeldSummaryFigures(a, market);
      } else {
        assert Summaries(assets, market).value == prefix;
      }
    }
  }

  /** A held position's summary is its market value and its cost basis. */
  lemma HeldSummaryFigures(a: Asset, market: Market)
    requires IsHeld(a) && SummaryAt(a, market).Success?
    ensures SummaryAt(a, market).value.totalValue == QuoteOrZero(market, a.symbol, a.assetType) * HeldQuantity(a)
    ensures SummaryAt(a, market).value.totalCostValue == Basis(a)
  {
  }

  /** The total gain is the sum of the positions' unrealized gains. */
  lemma {:induction false} TotalGainIsSumOfGains(s: seq<AssetSummary>)
    requires forall k :: 0 <= k < |s| ==> s[k].unrealizedGain == s[k].totalValue - s[k].totalCostValue
    ensures SumValue(s) - SumCost(s) == SumGain(s)
    decreases |s|
  {
    if s != [] {
      TotalGainIsSumOfGains(s[..|s| - 1]);
    }
  }

  /** Every summary in a successful portfolio keeps its gain consistent with its
      value and cost, so the portfolio's gain is the sum of its positions' gains. */
  lemma PortfolioGainIsSumOfGains(wallets: map<string, WalletRow>, assets: seq<Asset>, username: string,
                                  market: Market)
    requires PortfolioOf(wallets, assets, username, market).Success?
    ensures var p := PortfolioOf(wallets, assets, username, market).value;
            p.totalGain == SumGain(p.assets)
  {
    var p := PortfolioOf(wallets, assets, username, market).value;
    SummariesOfHeld(assets, market);
    forall k | 0 <= k < |p.assets|
      ensures p.assets[k].unrealizedGain == p.assets[k].totalValue - p.assets[k].totalCostValue
    {
      assert SummaryAt(Held(assets)[k], market) == Success(p.assets[k]);
    }
    TotalGainIsSumOfGains(p.assets);
  }

  class PortfolioService {
    const repos: Store

    constructor (repos: Store)
      ensures this.repos == repos
    {
      this.repos := repos;
    }

    /** `getPortfolioSummary`: finds the wallet, then walks the positions once,
        summarising each held one and adding its value and cost to the totals. */
    method GetPortfolioSummary(username: string, market: Market) returns (r: Result<PortfolioSummary, Error>)
      ensures r == PortfolioOf(repos.wallets, repos.assets, username, market)
    {
      if username !in repos.wallets {
        return Failure(WalletNotFound(username));
      }
      var wallet := repos.wallets[username];
      var assets := repos.assets;
      var summaries: seq<AssetSummary> := [];
      var portfolioValue := 0.0;
      var totalCostValue := 0.0;
      for i := 0 to |assets|
        invariant Summaries(assets[..i], market) == Success(summaries)
        invariant portfolioValue == SumValue(summaries)
        invariant totalCostValue == SumCost(summaries)
      {
        var asset := assets[i];
        SummariesOfPrefix(assets, i, market);
        if asset.quantity.Some? && asset.quantity.value > 0.0 {
          var summary := GetAssetSummary(asset, QuoteOrZero(market, asset.symbol, asset.assetType));
          if summary.Failure? {
            FailureSticks(assets, i + 1, market);
            return Failure(summary.error);
          }
          SumsOfSnoc(summaries, summary.value);
          summaries := summaries + [summary.value];
          portfolioValue := portfolioValue + summary.value.totalValue;
          totalCostValue := totalCostValue + summary.value.totalCostValue;
        }
      }
      assert assets[..|assets|] == assets;
      var totalGain := portfolioValue - totalCostValue;
      var gainPercentage := if totalCostValue > 0.0 then (totalGain / totalCostValue) * 100.0 else 0.0;
      r := Success(PortfolioSummary(username, wallet.balance, wallet.totalInvested, wallet.totalWithdrawn,
                                    portfolioValue, totalGain, gainPercentage, summaries));
    }
  }
}
