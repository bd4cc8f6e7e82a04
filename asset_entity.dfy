/** The asset position: one row per symbol, with a nullable quantity and a nullable
    weighted-average cost per unit. */
module AssetEntity {
  import opened Wrappers

  datatype Asset = Asset(
    id: int,
    symbol: string,
    name: string,
    assetType: string,
    quantity: Option<real>,
    costPerUnit: Option<real>)

  /** The quantity as a trade reads it: null counts as 0. */
  function HeldQuantity(a: Asset): real {
    a.quantity.GetOr(0.0)
  }

  /** The cost per unit as a trade reads it: null counts as 0. */
  function HeldCost(a: Asset): real {
    a.costPerUnit.GetOr(0.0)
  }

  /** What the position cost in total: quantity times average cost. */
  function CostValue(a: Asset): real {
    HeldQuantity(a) * HeldCost(a)
  }

  /** The position is held: its quantity is non-null and positive. */
  predicate IsHeld(a: Asset) {
    a.quantity.Some? && a.quantity.value > 0.0
  }
}
