/** The external quote service, reduced to the prices it would answer with. A symbol
    missing from a book stands for every way the call can fail: unreachable service,
    no body, no "price" key, or a price that does not parse. */
module Quotes {
  import opened Wrappers
  import opened Text

  datatype Market = Market(stockQuotes: map<string, real>, cryptoQuotes: map<string, real>)

  /** An asset whose type is "CRYPTO", ignoring case, is quoted by the crypto endpoint. */
  predicate IsCrypto(assetType: string) {
    EqualsIgnoreCase(assetType, "CRYPTO")
  }

  /** The price the endpoint chosen by the asset type answers with, if any. */
  function Quote(m: Market, symbol: string, assetType: string): (r: Option<real>)
    ensures IsCrypto(assetType) ==> (r.Some? <==> symbol in m.cryptoQuotes)
    ensures IsCrypto(assetType) && r.Some? ==> r.value == m.cryptoQuotes[symbol]
    ensures !IsCrypto(assetType) ==> (r.Some? <==> symbol in m.stockQuotes)
    ensures !IsCrypto(assetType) && r.Some? ==> r.value == m.stockQuotes[symbol]
  {
    var book := if IsCrypto(assetType) then m.cryptoQuotes else m.stockQuotes;
    if symbol in book then Some(book[symbol]) else None
  }

  /** The summary's price lookup, which reports an unavailable quote as 0.0. */
  function QuoteOrZero(m: Market, symbol: string, assetType: string): (r: real)
    ensures Quote(m, symbol, assetType).None? ==> r == 0.0
    ensures Quote(m, symbol, assetType).Some? ==> r == Quote(m, symbol, assetType).value
  {
    Quote(m, symbol, assetType).GetOr(0.0)
  }

  /** No quote is negative. */
  predicate NonNegative(m: Market) {
    (forall s :: s in m.stockQuotes ==> m.stockQuotes[s] >= 0.0) &&
    (forall s :: s in m.cryptoQuotes ==> m.cryptoQuotes[s] >= 0.0)
  }
}
