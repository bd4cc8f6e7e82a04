/** The asset service: merging a lot into the position with the same symbol by
    weighted average, lookups and deletion, and the valuation of one position. */
module Assets {
  import opened Wrappers
  import opened Seqs
  import opened Errors
  import opened AssetEntity
  import opened Repositories

  datatype AssetSummary = AssetSummary(
    id: int,
    symbol: string,
    name: string,
    assetType: string,
    quantity: real,
    costPerUnit: real,
    currentPrice: real,
    totalValue: real,
    totalCostValue: real,
    unrealizedGain: real,
    gainPercentage: real)

  /** All four numbers the merge unboxes are non-null. */
  predicate Mergeable(existing: Asset, incoming: Asset) {
    existing.quantity.Some? && existing.costPerUnit.Some? &&
    incoming.quantity.Some? && incoming.costPerUnit.Some?
  }

  /** The weighted average divides by the summed quantity; where that is zero the
      source computes NaN or an infinity, which a real cannot stand for. */
  predicate MergeDefined(existing: Asset, incoming: Asset) {
    Mergeable(existing, incoming) ==> existing.quantity.value + incoming.quantity.value != 0.0
  }

  /** The existing position after an incoming lot is merged into it: a null number
      throws; otherwise the quantities add and the cost per unit is whatever keeps
      the total cost value of both lots. */
  function Merged(existing: Asset, incoming: Asset): (r: Result<Asset, Error>)
    requires MergeDefined(existing, incoming)
    ensures r.Failure? <==> !Mergeable(existing, incoming)
    ensures r.Failure? ==> r.error == NullValue
    ensures r.Success? ==> r.value.id == existing.id && r.value.symbol == existing.symbol
    ensures r.Success? ==> r.value.name == existing.name && r.value.assetType == existing.assetType
    ensures r.Success? ==> r.value.quantity == Some(existing.quantity.value + incoming.quantity.value)
    ensures r.Success? ==> r.value.costPerUnit.Some?
    ensures r.Success? ==> CostValue(r.value) == CostValue(existing) + CostValue(incoming)
  {
    if !Mergeable(existing, incoming) then Failure(NullValue)
    else
      var existingValue := existing.quantity.value * existing.costPerUnit.value;
      var incomingValue := incoming.quantity.value * incoming.costPerUnit.value;
      var newQuantity := existing.quantity.value + incoming.quantity.value;
      var newAvgCost := (existingValue + incomingValue) / newQuantity;
      Success(existing.(quantity := Some(newQuantity), costPerUnit := Some(newAvgCost)))
  }

  /** With both quantities positive, the merged cost lies between the two costs. */
  lemma MergedCostBetween(existing: Asset, incoming: Asset)
    requires Mergeable(existing, incoming)
    requires existing.quantity.value > 0.0 && incoming.quantity.value > 0.0
    ensures var c := Merged(existing, incoming).value.costPerUnit.value;
            var c1, c2 := existing.costPerUnit.value, incoming.costPerUnit.value;
            (c1 <= c2 ==> c1 <= c <= c2) && (c2 <= c1 ==> c2 <= c <= c1)
  {
    var q1, c1 := existing.quantity.value, existing.costPerUnit.value;
    var q2, c2 := incoming.quantity.value, incoming.costPerUnit.value;
    var c := Merged(existing, incoming).value.costPerUnit.value;
    assert c == (q1 * c1 + q2 * c2) / (q1 + q2);
    BetweenByWeights(q1, c1, q2, c2, c);
  }

  /** The arithmetic behind MergedCostBetween: a positively weighted mean lies
      between its two values. */
  lemma BetweenByWeights(q1: real, c1: real, q2: real, c2: real, c: real)
    requires q1 > 0.0 && q2 > 0.0
    requires c == (q1 * c1 + q2 * c2) / (q1 + q2)
    ensures (c1 <= c2 ==> c1 <= c <= c2) && (c2 <= c1 ==> c2 <= c <= c1)
  {
    var n := q1 + q2;
    assert c * n == q1 * c1 + q2 * c2;
    assert c * n - c1 * n == q2 * (c2 - c1);
    assert c2 * n - c * n == q1 * (c2 - c1);
    assert (c - c1) * n == q2 * (c2 - c1);
    assert (c2 - c) * n == q1 * (c2 - c1);
    if c1 <= c2 {
      assert q2 * (c2 - c1) >= 0.0 && q1 * (c2 - c1) >= 0.0;
    } else {
      assert q2 * (c1 - c2) >= 0.0 && q1 * (c1 - c2) >= 0.0;
    }
  }

  /** `addOrUpdateAsset` can be run without dividing by zero. */
  predicate CanAddOrUpdate(assets: seq<Asset>, incoming: Asset) {
    var found := IndexOfSymbol(assets, incoming.symbol);
    found.Some? ==> MergeDefined(assets[found.value], incoming)
  }

  /** The `try` block of `getAssetSummary`: unboxing a null quantity or cost throws. */
  function Valued(asset: Asset, currentPrice: real): Result<AssetSummary, Error> {
    if asset.quantity.None? || asset.costPerUnit.None? then Failure(NullValue)
    else
      var q, c := asset.quantity.value, asset.costPerUnit.value;
      var totalValue := currentPrice * q;
      var totalCostValue := c * q;
      var unrealizedGain := totalValue - totalCostValue;
      var gainPercentage := if totalCostValue > 0.0 then (unrealizedGain / totalCostValue) * 100.0 else 0.0;
      Success(AssetSummary(asset.id, asset.symbol, asset.name, asset.assetType, q, c, currentPrice,
                           totalValue, totalCostValue, unrealizedGain, gainPercentage))
  }

  /** The `catch` block: the position valued at cost, with no gain; it unboxes the
      same two fields, so it throws too when either is null. */
  function AtCost(asset: Asset): (r: Result<AssetSummary, Error>)
    ensures r.Failure? <==> asset.quantity.None? || asset.costPerUnit.None?
    ensures r.Success? ==> r.value.currentPrice == asset.costPerUnit.value
    ensures r.Success? ==> r.value.totalValue == r.value.totalCostValue == asset.costPerUnit.value * asset.quantity.value
    ensures r.Success? ==> r.value.unrealizedGain == 0.0 && r.value.gainPercentage == 0.0
  {
    if asset.quantity.None? || asset.costPerUnit.None? then Failure(NullValue)
    else
      var totalValue := asset.costPerUnit.value * asset.quantity.value;
      Success(AssetSummary(asset.id, asset.symbol, asset.name, asset.assetType, asset.quantity.value,
                           asset.costPerUnit.value, asset.costPerUnit.value, totalValue, totalValue, 0.0, 0.0))
  }

  /** `getAssetSummary` for the price the quote lookup returned (0.0 when the quote
      is unavailable): value at that price, cost at the average cost, the gain and
      the gain as a percentage of cost. */
  function GetAssetSummary(asset: Asset, currentPrice: real): (r: Result<AssetSummary, Error>)
    ensures r.Failure? <==> asset.quantity.None? || asset.costPerUnit.None?
    ensures r.Failure? ==> r.error == NullValue
    ensures r.Success? ==> r.value.id == asset.id && r.value.symbol == asset.symbol
    ensures r.Success? ==> r.value.name == asset.name && r.value.assetType == asset.assetType
    ensures r.Success? ==> r.value.quantity == asset.quantity.value && r.value.costPerUnit == asset.costPerUnit.value
    ensures r.Success? ==> r.value.currentPrice == currentPrice
    ensures r.Success? ==> r.value.totalValue == currentPrice * asset.quantity.value
    ensures r.Success? ==> r.value.totalCostValue == asset.costPerUnit.value * asset.quantity.value
    ensures r.Success? ==> r.value.unrealizedGain == (currentPrice - asset.costPerUnit.value) * asset.quantity.value
    ensures r.Success? ==>
              r.value.gainPercentage ==
                (if r.value.totalCostValue > 0.0 then r.value.unrealizedGain / r.value.totalCostValue * 100.0 else 0.0)
  {
    match Valued(asset, currentPrice)
    case Success(s) => Success(s)
    case Failure(_) => AtCost(asset)
  }

  /** The `catch` block is entered only when a field is null, and then it throws
      itself: the valuation at cost is never returned. */
  lemma FallbackNeverReturned(asset: Asset, currentPrice: real)
    ensures Valued(asset, currentPrice).Failure? ==> AtCost(asset).Failure?
    ensures GetAssetSummary(asset, currentPrice) == Valued(asset, currentPrice)
  {
  }

  /** For a position held at a positive cost, the gain percentage is the relative
      change of the price against the average cost, whatever the quantity. */
  lemma GainPercentageIsPriceChange(asset: Asset, currentPrice: real)
    requires asset.quantity.Some? && asset.costPerUnit.Some?
    requires asset.quantity.value > 0.0 && asset.costPerUnit.value > 0.0
    ensures GetAssetSummary(asset, currentPrice).value.gainPercentage ==
              (currentPrice - asset.costPerUnit.value) / asset.costPerUnit.value * 100.0
  {
    var q, c := asset.quantity.value, asset.costPerUnit.value;
    var s := GetAssetSummary(asset, currentPrice).value;
    assert s.totalCostValue == c * q > 0.0;
    assert s.unrealizedGain == (currentPrice - c) * q;
    assert ((currentPrice - c) * q) / (c * q) == (currentPrice - c) / c;
  }

  /** Because an unavailable quote reads as 0.0, such a position shows a value of 0
      and a loss of its whole cost. */
  lemma UnavailableQuoteIsTotalLoss(asset: Asset)
    requires asset.quantity.Some? && asset.costPerUnit.Some?
    requires asset.quantity.value > 0.0 && asset.costPerUnit.value > 0.0
    ensures GetAssetSummary(asset, 0.0).value.totalValue == 0.0
    ensures GetAssetSummary(asset, 0.0).value.gainPercentage == -100.0
  {
    GainPercentageIsPriceChange(asset, 0.0);
  }

  class AssetService {
    const repos: Store

    constructor (repos: Store)
      ensures this.repos == repos
    {
      this.repos := repos;
    }

    /** A new symbol is stored as given, under a generated id; a known symbol has
        the incoming lot merged into it by weighted average. */
    method AddOrUpdateAsset(incoming: Asset) returns (r: Result<Asset, Error>)
      requires repos.Valid()
      requires CanAddOrUpdate(repos.assets, incoming)
      modifies repos
      ensures repos.Valid()
      ensures IndexOfSymbol(old(repos.assets), incoming.symbol).None? ==>
                r == Success(incoming.(id := old(repos.nextAssetId))) &&
                repos.assets == old(repos.assets) + [r.value]
      ensures IndexOfSymbol(old(repos.assets), incoming.symbol).Some? ==>
                var k := IndexOfSymbol(old(repos.assets), incoming.symbol).value;
                r == Merged(old(repos.assets)[k], incoming) &&
                repos.assets == (if r.Success? then old(repos.assets)[k := r.value] else old(repos.assets))
      ensures repos.nextAssetId ==
                old(repos.nextAssetId) + (if IndexOfSymbol(old(repos.assets), incoming.symbol).None? then 1 else 0)
      ensures repos.wallets == old(repos.wallets) && repos.transactions == old(repos.transactions)
    {
      var found := IndexOfSymbol(repos.assets, incoming.symbol);
      if found.None? {
        var stored := repos.InsertAsset(incoming);
        return Success(stored);
      }
      var k := found.value;
      var existing := repos.assets[k];
      if existing.quantity.None? || existing.costPerUnit.None? ||
         incoming.quantity.None? || incoming.costPerUnit.None? {
        return Failure(NullValue);
      }
      var existingValue := existing.quantity.value * existing.costPerUnit.value;
      var incomingValue := incoming.quantity.value * incoming.costPerUnit.value;
      var newQuantity := existing.quantity.value + incoming.quantity.value;
      var newAvgCost := (existingValue + incomingValue) / newQuantity;
      assert Merged(existing, incoming).value.costPerUnit.value == newAvgCost;
      existing := existing.(quantity := Some(newQuantity));
      existing := existing.(costPerUnit := Some(newAvgCost));
      repos.SaveAsset(k, existing);
      r := Success(existing);
    }

    function GetAllAssets(): (r: seq<Asset>)
      reads repos
      ensures r == repos.assets
    {
      repos.assets
    }

    /** `getAssetBySymbol`: the stored row with that symbol, if any. */
    function GetAssetBySymbol(symbol: string): (r: Option<Asset>)
      requires repos.Valid()
      reads repos
      ensures r.Some? <==> exists k :: 0 <= k < |repos.assets| && repos.assets[k].symbol == symbol
      ensures r.Some? ==> r.value in repos.assets && r.value.symbol == symbol
    {
      match IndexOfSymbol(repos.assets, symbol)
      case None => None
      case Some(k) => Some(repos.assets[k])
    }

    /** `getAssetById`: the stored row with that id, if any. */
    function GetAssetById(id: int): (r: Option<Asset>)
      requires repos.Valid()
      reads repos
      ensures r.Some? <==> exists k :: 0 <= k < |repos.assets| && repos.assets[k].id == id
      ensures r.Some? ==> r.value in repos.assets && r.value.id == id
    {
      match IndexOfId(repos.assets, id)
      case None => None
      case Some(k) => Some(repos.assets[k])
    }

    /** `deleteAsset`: every other row stays, in its order. */
    method DeleteAsset(id: int)
      requires repos.Valid()
      modifies repos
      ensures repos.Valid()
      ensures repos.assets == Filter(old(repos.assets), (a: Asset) => a.id != id)
      ensures repos.wallets == old(repos.wallets) && repos.transactions == old(repos.transactions)
      ensures repos.nextAssetId == old(repos.nextAssetId)
    {
      WithoutIdIsFilter(repos.assets, id);
      repos.DeleteAssetById(id);
    }
  }
}
