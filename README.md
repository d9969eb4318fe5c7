# ATM session machine, modelled in Dafny

This project models the `ATM` class of a small Java cash-machine library. An
`ATM` holds its own cash (`moneyAvailable`), the card of the current session
(`currentCard`) and a flag `isForbidden` that is true until a card is
accepted. A card is accepted by `validateCard` when it is not blocked and its
PIN matches. After that, `getMoneyInATM`, `checkBalance` and `getCash` are
allowed. `getCash` applies four checks in order and then debits the card's
account and the machine's cash.

Files:

- `collaborators.dfy`, module `Collaborators`: the card and the account. The
  terminal only uses them and does not own them. `Card` has a blocked flag, a
  PIN check and one account. `Account` has a balance and a withdrawal.
  `Account.Withdraw`'s contract is the one assumption made about accounts: the
  reported debit lies between 0 and the request, and the balance drops by
  exactly that debit.
- `atm_spec.dfy`, module `AtmSpec`: the terminal as values. `Snapshot` holds
  the three fields and the active account's balance. There is one function per
  operation. Each returns the new snapshot, the reply (a `Result` whose errors
  are the four exception kinds) and the calls made on the card and the account,
  in order. `Step` and `Run` apply operations in sequence. The lemmas state what
  holds across whole runs.
- `atm.dfy`, module `Atm`: the class `ATM`. It has the Java fields plus a ghost
  log `calls` of the collaborator calls. `ValidateCard`, `GetMoneyInATM`,
  `CheckBalance` and `GetCash` are proved against the `AtmSpec` function of
  the same name through `View()`; the constructor `Init` and the factory
  `Create` are proved against `AtmSpec.Construct`. All of them keep `Valid()`:
  `moneyAvailable >= 0` and `isForbidden <==> currentCard == null`.

Money is an exact `real`. Java's constructor either throws or builds an
object. It becomes `ATM.Create`, which returns `Err(InvalidArgument)` or a
fresh, valid `ATM`. `ATM.Init` is the constructor's success path and is only
called once the check has passed.

The class invariant proved here is an if-and-only-if,
`isForbidden <==> currentCard == null`. This is stronger than the one-way
implication: the constructor sets both fields together (ATM.java:17-18), and so
does `validateCard` (ATM.java:37-38).

`validateCard` uses `&&` (ATM.java:36), so a blocked card's PIN is never
consulted; `ValidateCard`'s call log records exactly that.

## Model

| member | source | states |
|---|---|---|
| `AtmSpec.Construct` | src/main/java/ua/pti/myatm/ATM.java:10-19 | construction fails with InvalidArgument iff the starting cash is negative; otherwise the cash is the input, no card is held, the session is forbidden and the invariant holds |
| `Atm.ATM.Init` | src/main/java/ua/pti/myatm/ATM.java:16-18 | for a non-negative amount, the new terminal is valid, holds that cash, holds no card, is forbidden and has made no calls |
| `Atm.ATM.Create` | src/main/java/ua/pti/myatm/ATM.java:10-19 | returns InvalidArgument for a negative amount; otherwise it returns a fresh valid terminal in exactly the state `Construct` describes |
| `AtmSpec.GetMoneyInATM` | src/main/java/ua/pti/myatm/ATM.java:22-29 | fails with NoCardInserted iff the session is forbidden; otherwise it returns the terminal's cash |
| `Atm.ATM.GetMoneyInATM` | src/main/java/ua/pti/myatm/ATM.java:22-29 | fails with NoCardInserted iff the session is forbidden; otherwise it returns `moneyAvailable`; it changes nothing |
| `AtmSpec.ValidateCard` | src/main/java/ua/pti/myatm/ATM.java:34-43 | accepts iff the card is not blocked and the PIN matches; acceptance opens a session on that card and keeps the cash; rejection changes nothing; IsBlocked is always asked first, and the PIN is asked only of an unblocked card; the invariant is kept |
| `Atm.ATM.ValidateCard` | src/main/java/ua/pti/myatm/ATM.java:34-43 | the method's reply, its new state and its calls are those of `AtmSpec.ValidateCard`; `currentCard` becomes the card on acceptance and is unchanged otherwise; `Valid()` is kept |
| `AtmSpec.CheckBalance` | src/main/java/ua/pti/myatm/ATM.java:46-52 | fails with NoCardInserted and makes no call iff the session is forbidden; otherwise it returns the active account's balance after GetAccount and GetBalance; the state is unchanged |
| `Atm.ATM.CheckBalance` | src/main/java/ua/pti/myatm/ATM.java:46-52 | the method's reply and its calls are those of `AtmSpec.CheckBalance`; only the call log changes |
| `AtmSpec.GetCash` | src/main/java/ua/pti/myatm/ATM.java:60-77 | each error holds iff the checks before it pass and its own check fails, in the order no session, amount <= 0, balance < amount, cash < amount; success holds iff all four pass; a failure changes no state and never calls Withdraw; a success calls Withdraw exactly once, with the amount and after reading the balance; it takes the reported debit from both the cash and the balance, and returns the balance read after the debit; with a debit in [0, amount] the invariant is kept |
| `Atm.ATM.GetCash` | src/main/java/ua/pti/myatm/ATM.java:60-77 | the method's reply, its new state (cash and account balance) and its calls are those of `AtmSpec.GetCash` for the debit the account reported; that debit lies in [0, amount]; the card is unchanged and `Valid()` is kept |
| `Collaborators.Account.Withdraw` | src/main/java/ua/pti/myatm/ATM.java:75 | the account's side of the withdrawal: it reports a debit between 0 and the request and lowers the balance by exactly that debit |
| `AtmSpec.StepPreservesInv` | src/main/java/ua/pti/myatm/ATM.java:71-75 | any one operation with an honest account keeps the invariant, never raises the cash, and never closes an open session |
| `AtmSpec.RunPreservesInv` | src/main/java/ua/pti/myatm/ATM.java:16-39 | every sequence of operations with honest accounts keeps cash >= 0 and isForbidden iff no card is held |
| `AtmSpec.RunNeverRefills` | src/main/java/ua/pti/myatm/ATM.java:75 | over any sequence of operations the cash never grows |
| `AtmSpec.RunKeepsSession` | src/main/java/ua/pti/myatm/ATM.java:34-43 | once a card is accepted, no later sequence of operations closes the session |
| `AtmSpec.RunWithoutAcceptanceIsIdle` | src/main/java/ua/pti/myatm/ATM.java:36-42 | while no session is open, a sequence of operations with no accepted card leaves the state exactly as it was |
| `AtmSpec.NoSessionBeforeAcceptance` | src/main/java/ua/pti/myatm/ATM.java:22-64 | after construction and any operations that accept no card, the cash query, the balance query and the withdrawal all fail with NoCardInserted |
| `AtmSpec.ReserveStaysWithinStart` | src/main/java/ua/pti/myatm/ATM.java:12-16 | after construction and any sequence of operations with honest accounts, the cash lies between 0 and the starting amount |
| `AtmSpec.RejectionKeepsEarlierSession` | src/main/java/ua/pti/myatm/ATM.java:31-43 | a rejected card leaves the cash query's answer as it was; it fails with NoCardInserted only when no card had been accepted before, so the comment's promise holds only for a fresh terminal |
| `AtmSpec.WithdrawalScenarios` | src/test/java/ua/pti/myatm/ATMTest.java:192-338 | the tests' withdrawals with a full debit: a terminal holding 1000 pays 0.01, 100 and 500 from balances 0.01, 200 and 1000, returning the balance left and lowering its cash by the amount; 100000.01 from balance 100000 fails with NotEnoughMoneyInAccount and 99999 from cash 99998 with NotEnoughMoneyInATM, both changing nothing; -0.01 gives InvalidArgument; without a session, NoCardInserted |

## Left out

- Floating point: Java `double` becomes exact `real`. Rounding, `Double.MAX_VALUE`, `Double.MIN_VALUE`, NaN and infinities are not modelled.
- Exception classes and message strings: each becomes one `Error` variant. Java throws `IllegalArgumentException` for both a non-positive amount and an overdrawn account. The model gives them distinct variants, InvalidArgument and NotEnoughMoneyInAccount.
- Card and account implementations: their source is not part of this model. `Card.CheckPin` is plain PIN equality. `Account.Withdraw` debits the whole request. The terminal's proofs use only `Withdraw`'s contract, so they hold for any account that keeps it, partial debits included.
- `Collaborators.Account.Withdraw` requires a positive amount. The terminal sends a withdrawal only after `amount > 0` has passed.
- A `null` card passed to `validateCard`: Java would throw `NullPointerException` there. The model's `Card` parameter is non-null.
- States reachable only through reflection: the Java tests write private fields directly, for example `isForbidden = false` with no card. The class methods require `Valid()` and exclude such states. `AtmSpec.GetCash` is total over snapshots, and `WithdrawalScenarios` covers the non-positive-amount case without a card.
- Call order: the ghost `calls` log records the calls the terminal makes on its collaborators. It does not say which card or account received each call.
- `Run` assumes that nothing else changes the account between two operations. The class methods make no such assumption: they re-read the balance through `View()` on every call.
- Concurrency: a single terminal used from several threads is not modelled. The source has no synchronisation.
- The JUnit/Mockito test harness is not modelled. The withdrawal amounts of its `getCash` tests appear as `WithdrawalScenarios`. That lemma states the balance the terminal returns after a full debit; the Java tests' mocks do not change the balance.
