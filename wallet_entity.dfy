/** The wallet entity: a user's cash balance and the two running totals. The entity
    object has nullable fields; the repository keeps rows whose totals are set, since
    every insert runs `OnCreate` first. */
module WalletEntity {
  import opened Wrappers

  datatype WalletRow = WalletRow(
    username: string,
    balance: real,
    totalInvested: real,
    totalWithdrawn: real)

  /** Cash brought into the wallet from outside, net: what trades move between
      `balance` and the two totals leaves it fixed. */
  function NetContribution(w: WalletRow): real {
    w.balance + w.totalInvested - w.totalWithdrawn
  }

  /** The `@PrePersist` rule for one total: null becomes 0.0, a value is kept. */
  function DefaultToZero(x: Option<real>): (r: Option<real>)
    ensures r.Some?
    ensures x.Some? ==> r == x
  {
    if x.None? then Some(0.0) else x
  }

  /** Applying the default twice is applying it once. */
  lemma DefaultToZeroIdempotent(x: Option<real>)
    ensures DefaultToZero(DefaultToZero(x)) == DefaultToZero(x)
    ensures x.None? ==> DefaultToZero(x) == Some(0.0)
  {
  }

  class Wallet {
    var username: Option<string>
    var balance: Option<real>
    var totalInvested: Option<real>
    var totalWithdrawn: Option<real>

    /** The no-argument constructor: every field null. */
    constructor ()
      ensures username.None? && balance.None?
      ensures totalInvested.None? && totalWithdrawn.None?
    {
      username, balance := None, None;
      totalInvested, totalWithdrawn := None, None;
    }

    /** `@PrePersist onCreate`: a null total becomes 0.0; nothing else changes. */
    method OnCreate()
      modifies this
      ensures totalInvested == DefaultToZero(old(totalInvested))
      ensures totalWithdrawn == DefaultToZero(old(totalWithdrawn))
      ensures totalInvested.Some? && totalWithdrawn.Some?
      ensures username == old(username) && balance == old(balance)
    {
      if totalInvested.None? {
        totalInvested := Some(0.0);
      }
      if totalWithdrawn.None? {
        totalWithdrawn := Some(0.0);
      }
    }

    /** Every column the row needs is set. */
    predicate Complete()
      reads this
    {
      username.Some? && balance.Some? && totalInvested.Some? && totalWithdrawn.Some?
    }

    /** The row the repository stores for this object. */
    function Row(): (r: WalletRow)
      requires Complete()
      reads this
      ensures Some(r.username) == username && Some(r.balance) == balance
      ensures Some(r.totalInvested) == totalInvested && Some(r.totalWithdrawn) == totalWithdrawn
    {
      WalletRow(username.value, balance.value, totalInvested.value, totalWithdrawn.value)
    }
  }
}
