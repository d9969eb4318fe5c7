/** The terminal itself: a class whose fields its methods update in place.
    Each method is proved, through View(), the snapshot of the terminal and
    its active account, against the function of the same name in AtmSpec;
    the constructor Init and the factory Create against AtmSpec.Construct. */
module Atm {
  import opened AtmSpec
  import opened Collaborators

  class ATM {
    var moneyAvailable: real
    var currentCard: Card?
    var isForbidden: bool
    /** The calls made on cards and accounts so far, in order. */
    ghost var calls: seq<Call>

    ghost predicate Valid()
      reads this
    {
      moneyAvailable >= 0.0 && (isForbidden <==> currentCard == null)
    }

    /** The account of the active card, the only object outside the terminal
        that it changes. */
    ghost function Accounts(): set<object>
      reads this
    {
      if currentCard == null then {} else {currentCard.account}
    }

    ghost function View(): (v: Snapshot)
      reads this, Accounts()
      ensures Valid() ==> Inv(v)
    {
      Snapshot(moneyAvailable, isForbidden, currentCard != null,
               if currentCard == null then 0.0 else currentCard.account.balance)
    }

    /** The constructor's success path; Create adds the check. */
    constructor Init(moneyInATM: real)
      requires moneyInATM >= 0.0
      ensures Valid() && Construct(moneyInATM) == Ok(View())
      ensures currentCard == null && calls == []
    {
      moneyAvailable := moneyInATM;
      currentCard := null;
      isForbidden := true;
      calls := [];
    }

    /** Construction: a negative amount is refused with InvalidArgument. */
    static method Create(moneyInATM: real) returns (r: Result<ATM>)
      ensures r.Err? <==> Construct(moneyInATM).Err?
      ensures r.Err? ==> r.error == InvalidArgument
      ensures r.Ok? ==> fresh(r.value) && r.value.Valid() && Construct(moneyInATM) == Ok(r.value.View())
      ensures r.Ok? ==> r.value.currentCard == null && r.value.calls == []
    {
      if moneyInATM < 0.0 {
        return Err(InvalidArgument);
      }
      var atm := new ATM.Init(moneyInATM);
      return Ok(atm);
    }

    method GetMoneyInATM() returns (r: Result<real>)
      ensures r == AtmSpec.GetMoneyInATM(View())
      ensures isForbidden <==> r == Err(NoCardInserted)
      ensures !isForbidden ==> r == Ok(moneyAvailable)
    {
      if isForbidden {
        return Err(NoCardInserted);
      }
      return Ok(moneyAvailable);
    }

    /** Accepts the card when it is not blocked and the PIN matches; the PIN
        is not checked on a blocked card, and a rejection changes nothing. */
    method ValidateCard(card: Card, pin: int) returns (ok: bool)
      requires Valid()
      modifies this`currentCard, this`isForbidden, this`calls
      ensures Valid()
      ensures var e := AtmSpec.ValidateCard(old(View()), card.blocked, card.CheckPin(pin), pin, card.account.balance);
              ok == e.result && View() == e.state && calls == old(calls) + e.calls
      ensures currentCard == if ok then card else old(currentCard)
    {
      calls := calls + [IsBlocked];
      var blocked := card.IsBlocked();
      if !blocked {
        calls := calls + [CheckPin(pin)];
        var pinMatches := card.CheckPin(pin);
        if pinMatches {
          currentCard := card;
          isForbidden := false;
          return true;
        }
      }
      return false;
    }

    method CheckBalance() returns (r: Result<real>)
      requires Valid()
      modifies this`calls
      ensures var e := AtmSpec.CheckBalance(old(View()));
              r == e.result && calls == old(calls) + e.calls
    {
      if isForbidden {
        return Err(NoCardInserted);
      }
      calls := calls + [GetAccount];
      var account := currentCard.GetAccount();
      calls := calls + [GetBalance];
      return Ok(account.GetBalance());
    }

    /** Withdrawal. The ghost out-parameter debited is what the account
        reported having debited (0 when the withdrawal fails). */
    method GetCash(amount: real) returns (r: Result<real>, ghost debited: real)
      requires Valid()
      modifies this`moneyAvailable, this`calls, Accounts()
      ensures Valid() && currentCard == old(currentCard)
      ensures DebitWithin(amount, debited)
      ensures var e := AtmSpec.GetCash(old(View()), amount, debited);
              r == e.result && View() == e.state && calls == old(calls) + e.calls
    {
      debited := 0.0;
      if isForbidden {
        return Err(NoCardInserted), debited;
      }
      if amount <= 0.0 {
        return Err(InvalidArgument), debited;
      }
      calls := calls + [GetAccount, GetBalance];
      if currentCard.GetAccount().GetBalance() < amount {
        return Err(NotEnoughMoneyInAccount), debited;
      }
      if moneyAvailable < amount {
        return Err(NotEnoughMoneyInATM), debited;
      }
      var account := currentCard.GetAccount();
      calls := calls + [GetAccount, Withdraw(amount)];
      var reported := account.Withdraw(amount);
      moneyAvailable := moneyAvailable - reported;
      debited := reported;
      calls := calls + [GetAccount, GetBalance];
      return Ok(account.GetBalance()), debited;
    }
  }
}
