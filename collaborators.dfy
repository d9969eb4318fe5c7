/** The two capabilities the terminal consumes but does not own: a card and
    the account behind it. Their implementations are not part of this model;
    each class keeps only the state the terminal observes, and the contract of
    Account.Withdraw is the assumption the terminal relies on. */
module Collaborators {

  /** A bank account: a balance that only its own withdrawal changes. */
  class Account {
    var balance: real

    constructor (balance: real)
      ensures this.balance == balance
    {
      this.balance := balance;
    }

    function GetBalance(): real
      reads this
    {
      balance
    }

    /** Debits the account and reports the amount actually debited. The
        contract admits any debit between 0 and the request, so a terminal
        proved against it works for partial debits too; this implementation
        debits the whole request. */
    method Withdraw(amount: real) returns (debited: real)
      requires amount > 0.0
      modifies this
      ensures 0.0 <= debited <= amount
      ensures balance == old(balance) - debited
    {
      debited := amount;
      balance := balance - amount;
    }
  }

  /** A payment card: a blocked flag, a PIN check and one account. */
  class Card {
    var blocked: bool
    const pin: int
    const account: Account

    constructor (blocked: bool, pin: int, account: Account)
      ensures this.blocked == blocked && this.pin == pin && this.account == account
    {
      this.blocked := blocked;
      this.pin := pin;
      this.account := account;
    }

    function IsBlocked(): bool
      reads this
    {
      blocked
    }

    predicate CheckPin(candidate: int) {
      candidate == pin
    }

    function GetAccount(): Account {
      account
    }
  }
}
