/** The transaction entity: one ledger entry per executed trade. Its two price
    columns are kept in step by the setters and by `OnCreate`. */
module TransactionEntity {
  import opened Wrappers
  import opened AssetEntity

  /** The row the repository stores: every column is non-null. */
  datatype TransactionRow = TransactionRow(
    id: int,
    username: string,
    assetId: int,
    txType: string,
    units: int,
    quantity: real,
    price: real,
    pricePerUnit: real,
    totalAmount: real)

  /** The rule both price setters follow for the other column: it is filled only
      while it is still null. */
  function FillIfNull(current: Option<real>, p: Option<real>): (r: Option<real>)
    ensures current.Some? ==> r == current
    ensures current.None? ==> r == p
  {
    if current.None? then p else current
  }

  /** What `onCreate` achieves for the two price columns: once either is set, both
      are; and unless both were already set, they end up equal. */
  lemma OnCreateSyncsPrices(price: Option<real>, pricePerUnit: Option<real>)
    ensures price.Some? || pricePerUnit.Some? ==>
              FillIfNull(price, pricePerUnit).Some? && FillIfNull(pricePerUnit, price).Some?
    ensures price.None? || pricePerUnit.None? ==> FillIfNull(price, pricePerUnit) == FillIfNull(pricePerUnit, price)
    ensures price.Some? && pricePerUnit.Some? ==>
              FillIfNull(price, pricePerUnit) == price && FillIfNull(pricePerUnit, price) == pricePerUnit
  {
  }

  class Transaction {
    var id: Option<int>
    var username: Option<string>
    var asset: Option<Asset>
    var quantity: Option<real>
    var txType: Option<string>
    var units: Option<int>
    var price: Option<real>
    var pricePerUnit: Option<real>
    var totalAmount: Option<real>

    constructor ()
      ensures id.None? && username.None? && asset.None? && quantity.None?
      ensures txType.None? && units.None? && price.None? && pricePerUnit.None?
      ensures totalAmount.None?
    {
      id, username, asset, quantity := None, None, None, None;
      txType, units, price, pricePerUnit := None, None, None, None;
      totalAmount := None;
    }

    method SetId(x: Option<int>)
      modifies this
      ensures id == x
      ensures username == old(username) && asset == old(asset) && quantity == old(quantity)
      ensures txType == old(txType) && units == old(units) && price == old(price)
      ensures pricePerUnit == old(pricePerUnit) && totalAmount == old(totalAmount)
    {
      id := x;
    }

    method SetUsername(x: Option<string>)
      modifies this
      ensures username == x
      ensures id == old(id) && asset == old(asset) && quantity == old(quantity)
      ensures txType == old(txType) && units == old(units) && price == old(price)
      ensures pricePerUnit == old(pricePerUnit) && totalAmount == old(totalAmount)
    {
      username := x;
    }

    method SetAsset(x: Option<Asset>)
      modifies this
      ensures asset == x
      ensures id == old(id) && username == old(username) && quantity == old(quantity)
      ensures txType == old(txType) && units == old(units) && price == old(price)
      ensures pricePerUnit == old(pricePerUnit) && totalAmount == old(totalAmount)
    {
      asset := x;
    }

    method SetQuantity(x: Option<real>)
      modifies this
      ensures quantity == x
      ensures id == old(id) && username == old(username) && asset == old(asset)
      ensures txType == old(txType) && units == old(units) && price == old(price)
      ensures pricePerUnit == old(pricePerUnit) && totalAmount == old(totalAmount)
    {
      quantity := x;
    }

    method SetType(x: Option<string>)
      modifies this
      ensures txType == x
      ensures id == old(id) && username == old(username) && asset == old(asset)
      ensures quantity == old(quantity) && units == old(units) && price == old(price)
      ensures pricePerUnit == old(pricePerUnit) && totalAmount == old(totalAmount)
    {
      txType := x;
    }

    method SetUnits(x: Option<int>)
      modifies this
      ensures units == x
      ensures id == old(id) && username == old(username) && asset == old(asset)
      ensures quantity == old(quantity) && txType == old(txType) && price == old(price)
      ensures pricePerUnit == old(pricePerUnit) && totalAmount == old(totalAmount)
    {
      units := x;
    }

    /** Sets `price`, and `pricePerUnit` too while that is still null. */
    method SetPrice(p: Option<real>)
      modifies this
      ensures price == p
      ensures pricePerUnit == FillIfNull(old(pricePerUnit), p)
      ensures id == old(id) && username == old(username) && asset == old(asset)
      ensures quantity == old(quantity) && txType == old(txType) && units == old(units)
      ensures totalAmount == old(totalAmount)
    {
      price := p;
      if pricePerUnit.None? {
        pricePerUnit := p;
      }
    }

    /** Sets `pricePerUnit`, and `price` too while that is still null. */
    method SetPricePerUnit(p: Option<real>)
      modifies this
      ensures pricePerUnit == p
      ensures price == FillIfNull(old(price), p)
      ensures id == old(id) && username == old(username) && asset == old(asset)
      ensures quantity == old(quantity) && txType == old(txType) && units == old(units)
      ensures totalAmount == old(totalAmount)
    {
      pricePerUnit := p;
      if price.None? {
        price := p;
      }
    }

    method SetTotalAmount(x: Option<real>)
      modifies this
      ensures totalAmount == x
      ensures id == old(id) && username == old(username) && asset == old(asset)
      ensures quantity == old(quantity) && txType == old(txType) && units == old(units)
      ensures price == old(price) && pricePerUnit == old(pricePerUnit)
    {
      totalAmount := x;
    }

    /** `@PrePersist onCreate`: when exactly one price column is null it takes the
        other's value; when both are set, or both null, nothing changes. */
    method OnCreate()
      modifies this
      ensures price == FillIfNull(old(price), old(pricePerUnit))
      ensures pricePerUnit == FillIfNull(old(pricePerUnit), old(price))
      ensures id == old(id) && username == old(username) && asset == old(asset)
      ensures quantity == old(quantity) && txType == old(txType) && units == old(units)
      ensures totalAmount == old(totalAmount)
    {
      if price.None? && pricePerUnit.Some? {
        price := pricePerUnit;
      } else if pricePerUnit.None? && price.Some? {
        pricePerUnit := price;
      }
    }

    /** Every non-nullable column is set. */
    predicate Complete()
      reads this
    {
      username.Some? && asset.Some? && quantity.Some? && txType.Some? && units.Some? &&
      price.Some? && pricePerUnit.Some? && totalAmount.Some?
    }

    /** The row stored under the generated id `newId`. */
    function Row(newId: int): (r: TransactionRow)
      requires Complete()
      reads this
      ensures r.id == newId && Some(r.username) == username && r.assetId == asset.value.id
      ensures Some(r.txType) == txType && Some(r.units) == units && Some(r.quantity) == quantity
      ensures Some(r.price) == price && Some(r.pricePerUnit) == pricePerUnit
      ensures Some(r.totalAmount) == totalAmount
    {
      TransactionRow(newId, username.value, asset.value.id, txType.value, units.value,
                     quantity.value, price.value, pricePerUnit.value, totalAmount.value)
    }
  }
}
