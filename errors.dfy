/** Every way a service call can fail. The source throws a `RuntimeException` or an
    `IllegalArgumentException` with a message; here each condition is its own kind. */
module Errors {

  datatype Error =
    | EmptyUsername                                   // createWallet: null or blank username
    | InvalidInitialBalance                           // createWallet: null or negative balance
    | DuplicateUsername(username: string)             // the unique constraint on wallet.username
    | WalletNotFound(username: string)
    | InsufficientBalance(required: real, available: real)
    | InvalidDepositAmount                            // depositFunds: null or not positive
    | InvalidWithdrawalAmount                         // withdrawFunds: null or not positive
    | AssetNotFound(symbol: string)
    | PriceUnavailable(symbol: string)                // the quote service gave no usable price
    | InsufficientUnits(requested: int, held: real)
    | InvalidTransactionType(txType: string)
    | TransactionFailed(cause: Error)                 // executeTransaction's wrapper of any failure
    | TransactionNotFound(id: int)
    | NullValue                                       // a null Double unboxed (NullPointerException)
}
