/** The wallet service: creation, lookup and the four cash movements, each a
    read-modify-save of one wallet row. The movement rules are also the ones a
    trade applies to the wallet. */
module Wallets {
  import opened Wrappers
  import opened Text
  import opened Errors
  import opened WalletEntity
  import opened Repositories

  /** Cash leaves the balance and is counted as invested. */
  function Debited(w: WalletRow, amount: real): (r: WalletRow)
    ensures r.username == w.username && r.totalWithdrawn == w.totalWithdrawn
    ensures r.balance == w.balance - amount && r.totalInvested == w.totalInvested + amount
    ensures NetContribution(r) == NetContribution(w)
  {
    w.(balance := w.balance - amount, totalInvested := w.totalInvested + amount)
  }

  /** Cash comes back to the balance and is counted as withdrawn from positions. */
  function Credited(w: WalletRow, amount: real): (r: WalletRow)
    ensures r.username == w.username && r.totalInvested == w.totalInvested
    ensures r.balance == w.balance + amount && r.totalWithdrawn == w.totalWithdrawn + amount
    ensures NetContribution(r) == NetContribution(w)
  {
    w.(balance := w.balance + amount, totalWithdrawn := w.totalWithdrawn + amount)
  }

  /** Outside cash comes in: only the balance moves, so the net contribution grows. */
  function Deposited(w: WalletRow, amount: real): (r: WalletRow)
    ensures r.username == w.username && r.balance == w.balance + amount
    ensures r.totalInvested == w.totalInvested && r.totalWithdrawn == w.totalWithdrawn
    ensures NetContribution(r) == NetContribution(w) + amount
  {
    w.(balance := w.balance + amount)
  }

  /** Cash goes out: only the balance moves, so the net contribution shrinks. */
  function Withdrawn(w: WalletRow, amount: real): (r: WalletRow)
    ensures r.username == w.username && r.balance == w.balance - amount
    ensures r.totalInvested == w.totalInvested && r.totalWithdrawn == w.totalWithdrawn
    ensures NetContribution(r) == NetContribution(w) - amount
  {
    w.(balance := w.balance - amount)
  }

  /** A username that `trim().isEmpty()` rejects: nothing but characters up to U+0020. */
  predicate IsBlank(s: string) {
    forall i :: 0 <= i < |s| ==> IsTrimmed(s[i])
  }

  /** `username.trim().isEmpty()`: true exactly for the blank usernames. */
  method TrimIsEmpty(s: string) returns (b: bool)
    ensures b <==> IsBlank(s)
  {
    TrimEmptyIffBlank(s);
    b := Trim(s) == [];
  }

  /** The wallet `createWallet` stores, or why it refuses. */
  function Created(wallets: map<string, WalletRow>, username: Option<string>, initialBalance: Option<real>)
    : (r: Result<WalletRow, Error>)
    ensures username.None? || IsBlank(username.value) ==> r == Failure(EmptyUsername)
    ensures (username.Some? && !IsBlank(username.value) &&
             (initialBalance.None? || initialBalance.value < 0.0)) ==> r == Failure(InvalidInitialBalance)
    ensures r.Success? <==> username.Some? && !IsBlank(username.value) && initialBalance.Some? &&
                            initialBalance.value >= 0.0 && username.value !in wallets
    ensures r.Success? ==> r.value == WalletRow(username.value, initialBalance.value, 0.0, 0.0)
  {
    if username.None? || IsBlank(username.value) then Failure(EmptyUsername)
    else if initialBalance.None? || initialBalance.value < 0.0 then Failure(InvalidInitialBalance)
    else if username.value in wallets then Failure(DuplicateUsername(username.value))
    else Success(WalletRow(username.value, initialBalance.value, 0.0, 0.0))
  }

  /** `deductBalance`: the wallet after the debit, or why there is none. */
  function Deducted(wallets: map<string, WalletRow>, username: string, amount: real)
    : (r: Result<WalletRow, Error>)
    ensures username !in wallets ==> r == Failure(WalletNotFound(username))
    ensures username in wallets && wallets[username].balance < amount ==>
              r == Failure(InsufficientBalance(amount, wallets[username].balance))
    ensures r.Success? <==> username in wallets && wallets[username].balance >= amount
    ensures r.Success? ==> r.value == Debited(wallets[username], amount) && r.value.balance >= 0.0
  {
    if username !in wallets then Failure(WalletNotFound(username))
    else if wallets[username].balance < amount then
      Failure(InsufficientBalance(amount, wallets[username].balance))
    else Success(Debited(wallets[username], amount))
  }

  /** `addBalance`: no validation, so it fails only for an unknown username. */
  function Added(wallets: map<string, WalletRow>, username: string, amount: real)
    : (r: Result<WalletRow, Error>)
    ensures r.Failure? <==> username !in wallets
    ensures r.Failure? ==> r.error == WalletNotFound(username)
    ensures r.Success? ==> r.value == Credited(wallets[username], amount)
  {
    if username !in wallets then Failure(WalletNotFound(username))
    else Success(Credited(wallets[username], amount))
  }

  /** `depositFunds`: the amount is checked before the wallet is looked up. */
  function DepositResult(wallets: map<string, WalletRow>, username: string, amount: Option<real>)
    : (r: Result<WalletRow, Error>)
    ensures amount.None? || amount.value <= 0.0 ==> r == Failure(InvalidDepositAmount)
    ensures amount.Some? && amount.value > 0.0 && username !in wallets ==> r == Failure(WalletNotFound(username))
    ensures r.Success? <==> amount.Some? && amount.value > 0.0 && username in wallets
    ensures r.Success? ==> r.value == Deposited(wallets[username], amount.value)
  {
    if amount.None? || amount.value <= 0.0 then Failure(InvalidDepositAmount)
    else if username !in wallets then Failure(WalletNotFound(username))
    else Success(Deposited(wallets[username], amount.value))
  }

  /** `withdrawFunds`: amount first, then the wallet, then the balance. */
  function WithdrawResult(wallets: map<string, WalletRow>, username: string, amount: Option<real>)
    : (r: Result<WalletRow, Error>)
    ensures amount.None? || amount.value <= 0.0 ==> r == Failure(InvalidWithdrawalAmount)
    ensures amount.Some? && amount.value > 0.0 && username !in wallets ==> r == Failure(WalletNotFound(username))
    ensures amount.Some? && amount.value > 0.0 && username in wallets &&
            wallets[username].balance < amount.value ==>
              r == Failure(InsufficientBalance(amount.value, wallets[username].balance))
    ensures r.Success? <==> amount.Some? && amount.value > 0.0 && username in wallets &&
                            wallets[username].balance >= amount.value
    ensures r.Success? ==> r.value == Withdrawn(wallets[username], amount.value) && r.value.balance >= 0.0
  {
    if amount.None? || amount.value <= 0.0 then Failure(InvalidWithdrawalAmount)
    else if username !in wallets then Failure(WalletNotFound(username))
    else if wallets[username].balance < amount.value then
      Failure(InsufficientBalance(amount.value, wallets[username].balance))
    else Success(Withdrawn(wallets[username], amount.value))
  }

  /** The store after an operation that produced `r`: a new row replaces the one
      under its username, a failure leaves the wallets as they were. */
  function Committed(wallets: map<string, WalletRow>, r: Result<WalletRow, Error>): map<string, WalletRow> {
    if r.Success? then wallets[r.value.username := r.value] else wallets
  }

  /** Depositing an amount and withdrawing it again restores the wallet exactly,
      provided its balance was not negative to begin with. */
  lemma DepositWithdrawRoundTrip(wallets: map<string, WalletRow>, username: string, amount: real)
    requires username in wallets && wallets[username].username == username
    requires wallets[username].balance >= 0.0 && amount > 0.0
    ensures var d := DepositResult(wallets, username, Some(amount));
            d.Success? &&
            WithdrawResult(Committed(wallets, d), username, Some(amount)) == Success(wallets[username]) &&
            Committed(Committed(wallets, d), WithdrawResult(Committed(wallets, d), username, Some(amount))) == wallets
  {
    var w := wallets[username];
    var d := DepositResult(wallets, username, Some(amount));
    assert d.value == w.(balance := w.balance + amount);
    var after := Committed(wallets, d);
    assert after[username].balance == w.balance + amount >= amount;
    assert Withdrawn(after[username], amount) == w;
  }

  class WalletService {
    const repos: Store

    constructor (repos: Store)
      ensures this.repos == repos
    {
      this.repos := repos;
    }

    /** Validates the arguments, builds the entity field by field and inserts it. */
    method CreateWallet(username: Option<string>, initialBalance: Option<real>)
      returns (r: Result<WalletRow, Error>)
      requires repos.Valid()
      modifies repos
      ensures repos.Valid()
      ensures r == Created(old(repos.wallets), username, initialBalance)
      ensures repos.wallets == Committed(old(repos.wallets), r)
      ensures repos.assets == old(repos.assets) && repos.transactions == old(repos.transactions)
      ensures repos.nextAssetId == old(repos.nextAssetId)
    {
      if username.None? {
        return Failure(EmptyUsername);
      }
      var blank := TrimIsEmpty(username.value);
      if blank {
        return Failure(EmptyUsername);
      }
      if initialBalance.None? || initialBalance.value < 0.0 {
        return Failure(InvalidInitialBalance);
      }
      var wallet := new Wallet();
      wallet.username := username;
      wallet.balance := initialBalance;
      wallet.totalInvested := Some(0.0);
      wallet.totalWithdrawn := Some(0.0);
      r := repos.InsertWallet(wallet);
    }

    /** `getWalletByUsername`: fails exactly when no wallet has that username. */
    function GetWalletByUsername(username: string): (r: Result<WalletRow, Error>)
      reads repos
      ensures r.Success? <==> username in repos.wallets
      ensures r.Success? ==> r.value == repos.wallets[username]
      ensures r.Failure? ==> r.error == WalletNotFound(username)
    {
      if username in repos.wallets then Success(repos.wallets[username])
      else Failure(WalletNotFound(username))
    }

    method DeductBalance(username: string, amount: real) returns (r: Result<WalletRow, Error>)
      requires repos.Valid()
      modifies repos
      ensures repos.Valid()
      ensures r == Deducted(old(repos.wallets), username, amount)
      ensures repos.wallets == Committed(old(repos.wallets), r)
      ensures repos.assets == old(repos.assets) && repos.transactions == old(repos.transactions)
      ensures repos.nextAssetId == old(repos.nextAssetId)
    {
      var found := GetWalletByUsername(username);
      if found.Failure? {
        return Failure(found.error);
      }
      var wallet := found.value;
      if wallet.balance < amount {
        return Failure(InsufficientBalance(amount, wallet.balance));
      }
      wallet := wallet.(balance := wallet.balance - amount);
      wallet := wallet.(totalInvested := wallet.totalInvested + amount);
      repos.SaveWallet(wallet);
      r := Success(wallet);
    }

    method AddBalance(username: string, amount: real) returns (r: Result<WalletRow, Error>)
      requires repos.Valid()
      modifies repos
      ensures repos.Valid()
      ensures r == Added(old(repos.wallets), username, amount)
      ensures repos.wallets == Committed(old(repos.wallets), r)
      ensures repos.assets == old(repos.assets) && repos.transactions == old(repos.transactions)
      ensures repos.nextAssetId == old(repos.nextAssetId)
    {
      var found := GetWalletByUsername(username);
      if found.Failure? {
        return Failure(found.error);
      }
      var wallet := found.value;
      wallet := wallet.(balance := wallet.balance + amount);
      wallet := wallet.(totalWithdrawn := wallet.totalWithdrawn + amount);
      repos.SaveWallet(wallet);
      r := Success(wallet);
    }

    method DepositFunds(username: string, amount: Option<real>) returns (r: Outcome<Error>)
      requires repos.Valid()
      modifies repos
      ensures repos.Valid()
      ensures var spec := DepositResult(old(repos.wallets), username, amount);
              (r.Pass? <==> spec.Success?) && (r.Fail? ==> r.error == spec.error) &&
              repos.wallets == Committed(old(repos.wallets), spec)
      ensures repos.assets == old(repos.assets) && repos.transactions == old(repos.transactions)
      ensures repos.nextAssetId == old(repos.nextAssetId)
    {
      if amount.None? || amount.value <= 0.0 {
        return Fail(InvalidDepositAmount);
      }
      var found := GetWalletByUsername(username);
      if found.Failure? {
        return Fail(found.error);
      }
      var wallet := found.value;
      wallet := wallet.(balance := wallet.balance + amount.value);
      repos.SaveWallet(wallet);
      r := Pass;
    }

    method WithdrawFunds(username: string, amount: Option<real>) returns (r: Outcome<Error>)
      requires repos.Valid()
      modifies repos
      ensures repos.Valid()
      ensures var spec := WithdrawResult(old(repos.wallets), username, amount);
              (r.Pass? <==> spec.Success?) && (r.Fail? ==> r.error == spec.error) &&
              repos.wallets == Committed(old(repos.wallets), spec)
      ensures repos.assets == old(repos.assets) && repos.transactions == old(repos.transactions)
      ensures repos.nextAssetId == old(repos.nextAssetId)
    {
      if amount.None? || amount.value <= 0.0 {
        return Fail(InvalidWithdrawalAmount);
      }
      var found := GetWalletByUsername(username);
      if found.Failure? {
        return Fail(found.error);
      }
      var wallet := found.value;
      if wallet.balance < amount.value {
        return Fail(InsufficientBalance(amount.value, wallet.balance));
      }
      wallet := wallet.(balance := wallet.balance - amount.value);
      repos.SaveWallet(wallet);
      r := Pass;
    }
  }
}
