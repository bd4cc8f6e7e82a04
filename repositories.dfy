/** The three repositories as one store: wallets keyed by username, the asset table
    in repository order, and the append-only transaction ledger. */
module Repositories {
  import opened Wrappers
  import opened Seqs
  import opened Errors
  import opened AssetEntity
  import opened WalletEntity
  import opened TransactionEntity

  /** `assetRepository.findBySymbol`: where the row with this symbol is. */
  function IndexOfSymbol(assets: seq<Asset>, symbol: string): (r: Option<nat>)
    ensures r.Some? ==> r.value < |assets| && assets[r.value].symbol == symbol
    ensures r.None? <==> forall k :: 0 <= k < |assets| ==> assets[k].symbol != symbol
  {
    FirstWhere(assets, (a: Asset) => a.symbol == symbol)
  }

  /** `assetRepository.findById`: where the row with this id is. */
  function IndexOfId(assets: seq<Asset>, id: int): (r: Option<nat>)
    ensures r.Some? ==> r.value < |assets| && assets[r.value].id == id
    ensures r.Some? ==> forall k :: 0 <= k < r.value ==> assets[k].id != id
    ensures r.None? <==> forall k :: 0 <= k < |assets| ==> assets[k].id != id
  {
    FirstWhere(assets, (a: Asset) => a.id == id)
  }

  /** The unique constraint on `assets.symbol`. */
  ghost predicate UniqueSymbols(assets: seq<Asset>) {
    forall i, j :: 0 <= i < j < |assets| ==> assets[i].symbol != assets[j].symbol
  }

  /** Primary keys are unique. */
  ghost predicate UniqueIds(assets: seq<Asset>) {
    forall i, j :: 0 <= i < j < |assets| ==> assets[i].id != assets[j].id
  }

  /** The table without the row at position `k`. */
  function RemoveAt(assets: seq<Asset>, k: nat): (r: seq<Asset>)
    requires k < |assets|
    ensures |r| == |assets| - 1
    ensures forall m :: 0 <= m < k ==> r[m] == assets[m]
    ensures forall m :: k <= m < |r| ==> r[m] == assets[m + 1]
  {
    assets[..k] + assets[k + 1..]
  }

  /** `deleteById`: the row with that id goes, if there is one. */
  function WithoutId(assets: seq<Asset>, id: int): seq<Asset> {
    match IndexOfId(assets, id)
    case None => assets
    case Some(k) => RemoveAt(assets, k)
  }

  /** With unique ids, deleting by id keeps exactly the rows with another id, in
      their order. */
  lemma WithoutIdIsFilter(assets: seq<Asset>, id: int)
    requires UniqueIds(assets)
    ensures WithoutId(assets, id) == Filter(assets, (a: Asset) => a.id != id)
  {
    var p := (a: Asset) => a.id != id;
    match IndexOfId(assets, id)
    case None =>
      FilterAll(assets, p);
    case Some(k) =>
      var before, after := assets[..k], assets[k + 1..];
      assert assets == before + [assets[k]] + after;
      assert forall m :: 0 <= m < |before| ==> before[m] == assets[m];
      FilterAll(before, p);
      forall m | 0 <= m < |after| ensures p(after[m]) {
        assert after[m] == assets[k + 1 + m];
      }
      FilterAll(after, p);
      FilterSingleton(assets[k], p);
      FilterAppend(before + [assets[k]], after, p);
      FilterAppend(before, [assets[k]], p);
      assert Filter(assets, p) == before + after;
  }

  /** Removing a row keeps the keys unique. */
  lemma RemoveAtKeepsKeys(assets: seq<Asset>, k: nat)
    requires k < |assets|
    requires UniqueSymbols(assets) && UniqueIds(assets)
    ensures UniqueSymbols(RemoveAt(assets, k)) && UniqueIds(RemoveAt(assets, k))
  {
    var r := RemoveAt(assets, k);
    forall i, j | 0 <= i < j < |r|
      ensures r[i].symbol != r[j].symbol && r[i].id != r[j].id
    {
      var i', j' := if i < k then i else i + 1, if j < k then j else j + 1;
      assert r[i] == assets[i'] && r[j] == assets[j'] && i' < j';
    }
  }

  class Store {
    var wallets: map<string, WalletRow>
    var assets: seq<Asset>
    var transactions: seq<TransactionRow>
    var nextAssetId: int

    /** The store's invariant: wallets are keyed by their username and asset
        symbols and ids are unique and below the next identity value, as the
        database's keys guarantee. That each transaction's id is its position in
        the ledger plus one is a modelling assumption: an identity column only
        promises unique increasing ids, and the ledger here starts empty and is
        only ever appended to. */
    ghost predicate Valid()
      reads this
    {
      (forall u :: u in wallets ==> wallets[u].username == u) &&
      UniqueSymbols(assets) && UniqueIds(assets) &&
      (forall k :: 0 <= k < |assets| ==> assets[k].id < nextAssetId) &&
      (forall k :: 0 <= k < |transactions| ==> transactions[k].id == k + 1)
    }

    constructor ()
      ensures Valid()
      ensures wallets == map[] && assets == [] && transactions == []
    {
      wallets, assets, transactions := map[], [], [];
      nextAssetId := 1;
    }

    /** `walletRepository.save` of a new wallet: `OnCreate` runs, then the insert
        fails on the unique username or stores the row. */
    method InsertWallet(w: Wallet) returns (r: Result<WalletRow, Error>)
      requires Valid()
      requires w.username.Some? && w.balance.Some?
      modifies this`wallets, w
      ensures Valid()
      ensures w.username == old(w.username) && w.balance == old(w.balance)
      ensures w.totalInvested == DefaultToZero(old(w.totalInvested))
      ensures w.totalWithdrawn == DefaultToZero(old(w.totalWithdrawn))
      ensures old(w.username.value) in old(wallets) ==>
                r == Failure(DuplicateUsername(old(w.username.value))) && wallets == old(wallets)
      ensures old(w.username.value) !in old(wallets) ==>
                r == Success(w.Row()) && wallets == old(wallets)[w.username.value := w.Row()]
    {
      w.OnCreate();
      var username := w.username.value;
      if username in wallets {
        return Failure(DuplicateUsername(username));
      }
      var row := w.Row();
      wallets := wallets[username := row];
      r := Success(row);
    }

    /** `walletRepository.save` of a wallet that is already stored. */
    method SaveWallet(w: WalletRow)
      requires Valid()
      requires w.username in wallets
      modifies this`wallets
      ensures Valid()
      ensures wallets == old(wallets)[w.username := w]
    {
      wallets := wallets[w.username := w];
    }

    /** `assetRepository.save` of a new asset: it gets the next identity value. */
    method InsertAsset(a: Asset) returns (stored: Asset)
      requires Valid()
      requires IndexOfSymbol(assets, a.symbol).None?
      modifies this`assets, this`nextAssetId
      ensures Valid()
      ensures stored == a.(id := old(nextAssetId))
      ensures assets == old(assets) + [stored] && nextAssetId == old(nextAssetId) + 1
    {
      stored := a.(id := nextAssetId);
      assets := assets + [stored];
      nextAssetId := nextAssetId + 1;
    }

    /** `assetRepository.save` of a stored asset, identified by its position. */
    method SaveAsset(k: nat, a: Asset)
      requires Valid()
      requires k < |assets| && a.id == assets[k].id && a.symbol == assets[k].symbol
      modifies this`assets
      ensures Valid()
      ensures assets == old(assets)[k := a]
    {
      assets := assets[k := a];
    }

    /** `assetRepository.deleteById`: a missing id is ignored. */
    method DeleteAssetById(id: int)
      requires Valid()
      modifies this`assets
      ensures Valid()
      ensures assets == WithoutId(old(assets), id)
    {
      var found := IndexOfId(assets, id);
      if found.Some? {
        RemoveAtKeepsKeys(assets, found.value);
        assets := RemoveAt(assets, found.value);
      }
    }

    /** `transactionRepository.save` of a new record: `OnCreate` reconciles the
        price columns, the record gets the next identity value and is appended. */
    method SaveTransaction(t: Transaction) returns (row: TransactionRow)
      requires Valid()
      requires t.username.Some? && t.asset.Some? && t.quantity.Some? && t.txType.Some?
      requires t.units.Some? && t.totalAmount.Some? && (t.price.Some? || t.pricePerUnit.Some?)
      modifies this`transactions, t
      ensures Valid()
      ensures t.Complete() && t.id == Some(row.id)
      ensures row.id == |old(transactions)| + 1
      ensures Some(row.username) == old(t.username) && Some(row.txType) == old(t.txType)
      ensures row.assetId == old(t.asset).value.id && Some(row.units) == old(t.units)
      ensures Some(row.quantity) == old(t.quantity) && Some(row.totalAmount) == old(t.totalAmount)
      ensures Some(row.price) == FillIfNull(old(t.price), old(t.pricePerUnit))
      ensures Some(row.pricePerUnit) == FillIfNull(old(t.pricePerUnit), old(t.price))
      ensures transactions == old(transactions) + [row]
    {
      t.OnCreate();
      var newId := |transactions| + 1;
      t.SetId(Some(newId));
      row := t.Row(newId);
      transactions := transactions + [row];
    }
  }
}
