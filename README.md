# banking-goat ledger in Dafny

A model of the in-memory banking ledger in `src/index.ts`, with proofs about it.
The ledger has four parts:

- **Global registry.** A process-wide map from a string id to an object. Users are registered there, and banks can be registered there too.
- **Bank accounts.** Each account holds a balance and a flag saying whether overdraft is allowed. Deposit adds to the balance. Withdraw refuses to overdraw unless overdraft is allowed.
- **Banks.** A bank is a table of accounts keyed by account id. It can open an account, look one up, and send money. Sending moves money from the sender's primary account in this bank to the receiver's primary account. That account is in this bank, or in the bank registered under a given id.
- **Users.** A user has an ordered list of account ids. The first one is the user's primary account.

The source updates state in place, so the model is imperative:

- `Registry`, `BankAccount`, `Bank` and `User` are classes.
- Their methods carry `modifies` clauses. Their query functions carry `reads` clauses.
- The registry's `Map<string, any>` is a field `entries: map<string, Entry>`. `Entry` is either a user or a bank.
- A bank's `Map` of accounts is a field `accounts: map<string, BankAccount>`.

Errors the source throws become values:

- `Withdraw` returns an `Outcome` (`Pass` or `Fail(error)`).
- `GetAccount` returns a `Result`.
- `Send` returns an `Outcome`.

An unregistered or wrongly typed registry entry makes the source dereference `undefined` or call a missing method. The model turns that into an explicit failure: `UserNotFound` or `BankNotFound`.

Files:

- `ledger.dfy` (module `Ledger`): the registry, account, user and bank classes.
  - `ResolveTransfer` is the specification of the lookups a transfer makes.
  - `Balances` and `Total` give the abstract ledger view of a bank.
- `sums.dfy` (module `Sums`): the total of a ledger view. Its lemmas show that a transfer inside one view conserves the total.
- `conservation.dfy` (module `Conservation`): what a transfer does to whole ledgers. These are client methods that derive it from `Bank.Send`'s per-account contract.
- `ids.dfy` (module `Ids`): random ids are modelled as a choice of any unused string. This module proves such a string always exists.
- `scenarios.dfy` (module `Scenarios`): the repository's test fixture and scenarios over it. Each expected outcome is a postcondition.

How a transfer reports a lookup that goes wrong follows the code exactly:

- **A user with no accounts.** `getPrimaryAccountId` returns `undefined`, and `getAccount(undefined)` then throws "Account not found". So the model reports `AccountNotFound`; there is no separate error kind for an empty account list. `User.PrimaryAccountId` still reports the empty list as `None`.
- **Error order.** The code reaches the target bank's lookup before it dereferences the receiver. The model follows JavaScript evaluation order:
  1. the sender;
  2. the sender's account;
  3. the target bank, when its key is missing altogether;
  4. the receiver;
  5. a target key that holds something other than a bank;
  6. the receiver's account.
- **An empty `toBankId`.** The string `""` is falsy in JavaScript, so it means this bank, the same as omitting it.

## Model

| member | source | states |
|---|---|---|
| Ledger.Registry.constructor | src/index.ts:2 | a new registry is empty |
| Ledger.Registry.Clear | src/index.ts:4-6 | afterwards the registry holds no entry |
| Ledger.Registry.Register | src/index.ts:8-10 | the entry under the key becomes the value; every other entry is kept; a second register on the same key overwrites the first |
| Ledger.Registry.Get | src/index.ts:12-14 | returns a value exactly when the key is registered, and then the value registered last under it |
| Ledger.Registry.LookupUser | src/index.ts:87-88 | finds a user exactly when the key holds a user entry, and returns that user; absent or non-user entries are reported as missing |
| Ledger.Registry.LookupBank | src/index.ts:90 | finds a bank exactly when the key holds a bank entry, and that bank is one of the registered banks |
| Ledger.BankAccount.constructor | src/index.ts:25-29 | the account holds the given id, balance and overdraft flag |
| Ledger.BankAccount.Deposit | src/index.ts:39-41 | the balance rises by exactly the amount; id and flag are constants and stay as they were |
| Ledger.BankAccount.Withdraw | src/index.ts:43-48 | fails with InsufficientFunds if and only if overdraft is disallowed and the balance is below the amount; on failure the balance is unchanged; on success it drops by exactly the amount, and with overdraft disallowed it stays non-negative |
| Ledger.User.constructor | src/index.ts:102-106 | the user holds the given id and account list |
| Ledger.User.Create | src/index.ts:108-113 | the new user gets an id not yet registered, keeps the given account list, and is registered under that id with every other entry kept |
| Ledger.User.PrimaryAccountId | src/index.ts:119-121 | the first account id of the list, and none for an empty list |
| Ledger.Bank.constructor | src/index.ts:56-59 | a bank with the given id and flag and no accounts |
| Ledger.Bank.Create | src/index.ts:61-65 | a new bank with no accounts that allows overdraft exactly when the option says true (absent defaults to false) |
| Ledger.Bank.CreateAccount | src/index.ts:71-76 | files a new account under an id the bank has not used, with the given balance and the bank's own flag; every other entry is kept |
| Ledger.Bank.GetAccount | src/index.ts:78-84 | succeeds exactly when the id is filed, returning the stored account (whose id is that id); otherwise fails with AccountNotFound; the table is only read |
| Ledger.Bank.GetPrimaryAccount | src/index.ts:89 | succeeds exactly when the user has an account list whose first id is filed in this bank, returning that account; otherwise AccountNotFound |
| Ledger.Bank.TargetBank | src/index.ts:90 | an absent or empty target id means this bank; any other id means the bank registered under it, if any |
| Ledger.Bank.ResolveTransfer | src/index.ts:86-90 | the lookups of a transfer never report InsufficientFunds; each failing lookup, in evaluation order, gives its own error: an unknown sender UserNotFound, then an unfiled sender account AccountNotFound, then a target key with nothing registered BankNotFound, then an unknown receiver UserNotFound, then a target key holding no bank BankNotFound, then an unfiled receiver account AccountNotFound; a success names the sender's primary account here, the target bank, and the receiver's primary account there; and whenever those three exist, the lookups succeed with exactly them |
| Ledger.Bank.ResolveRegistered | src/index.ts:86-90 | with both users registered, the target bank found and both first account ids filed, the lookups resolve to those accounts |
| Ledger.Bank.Balances | src/index.ts:53 | the definition of a bank's ledger view, which the conservation lemmas are stated over: its keys are the bank's account ids and each value is that account's balance |
| Ledger.Bank.LedgerAfterChange | src/index.ts:40 | if one account's balance moved by a delta and no other did, the bank's ledger is the old one with that entry moved, and its total moved by the delta |
| Ledger.Bank.LedgerAfterTransfer | src/index.ts:92-93 | if an amount left one account of the bank and entered another, and no other balance moved, the ledger is the old one with that transfer applied, and the total is unchanged |
| Ledger.Bank.Send | src/index.ts:86-94 | all lookups happen before any balance moves; a failed lookup fails with its error and moves nothing; otherwise the transfer fails with InsufficientFunds exactly when the withdrawal is refused, and then moves nothing; a success takes the amount from the sender's primary account and adds it to the receiver's; the sum of the two is always conserved; no other account of either bank changes |
| Sums.SumRemove | src/index.ts:53 | any single account can be split off a ledger's total |
| Sums.SumUpdate | src/index.ts:40 | overwriting one balance changes the total by exactly the difference |
| Sums.Transfer | src/index.ts:92-93 | moving an amount between two entries of a ledger lowers the source by it and raises the target by it, leaves every other entry, and is the identity when source and target coincide |
| Sums.TransferConserves | src/index.ts:92-93 | a transfer inside one ledger leaves its total unchanged |
| Ids.LongerThanAll | src/index.ts:72 | a string longer than every string in a finite set |
| Ids.FreshIdExists | src/index.ts:109 | whatever ids are in use, an unused one exists, so the fresh-id choices in CreateAccount and User.Create can always be made |
| Conservation.SendWithinBank | src/index.ts:86-94 | a transfer inside one bank leaves the bank's total unchanged; a failed one leaves its ledger unchanged; a successful one applies exactly the transfer of the amount between the two primary accounts |
| Conservation.SendAcrossBanks | src/index.ts:86-94 | a failed transfer to another bank leaves both banks' ledgers unchanged; a successful transfer to another bank that shares no account with this one lowers this bank's total by the amount and raises the other's by the amount |
| Scenarios.CreateFixtures | src/__tests__/helpers/TestFactory.ts:16-40 | the fixture has a bank that forbids overdraft with Alice at 1000 and Bob at 500, a bank that allows overdraft with Alice's second account at 200, and exactly Alice and Bob registered |
| Scenarios.TransferScenario | src/__tests__/helpers/TestFactory.ts:16-40 | Alice sending 300 to Bob passes and leaves 700 and 800 |
| Scenarios.InsufficientFundsScenario | src/index.ts:43-46 | withdrawing 300 from 200 without overdraft fails with InsufficientFunds and leaves 200 |
| Scenarios.OverdraftScenario | src/__tests__/helpers/TestFactory.ts:20-23 | withdrawing 300 from the overdraft account's 200 passes and leaves -100 |
| Scenarios.WithdrawDepositRoundTrip | src/index.ts:39-48 | withdrawing and then depositing the amount restores the initial balance; the withdrawal passes exactly when overdraft is allowed or the balance covers it |
| Scenarios.UnknownAccountScenario | src/index.ts:78-84 | looking up an id the bank never issued fails with AccountNotFound and adds no account |
| Scenarios.CreateCrossBankFixtures | src/index.ts:90 | with a second bank registered under a non-empty key and a receiver whose primary account is there, the lookups of a cross-bank transfer resolve to Bob's account, the receiver's account and that bank |
| Scenarios.CrossBankScenario | src/index.ts:86-94 | Bob sending 100 across banks passes and leaves 400 and 300 |
| Scenarios.MissingBankKeyScenario | src/index.ts:87-90 | naming a target bank key with nothing registered, together with an unknown receiver, fails with BankNotFound (the bank is looked up first), with the sender still at 1000 |
| Scenarios.UserKeyUnknownReceiverScenario | src/index.ts:87-90 | naming a user's key as the target bank, together with an unknown receiver, fails with UserNotFound (the receiver is dereferenced before the missing method is called), with the sender still at 1000 |
| Scenarios.UserKeyAsBankScenario | src/index.ts:90 | naming a user's key as the target bank between two registered users fails with BankNotFound and moves no balance |
| Scenarios.NoAccountsScenario | src/index.ts:89-90 | a receiver with no accounts makes the transfer fail with AccountNotFound, with the sender still at 1000 |
| Scenarios.UnregisteredUserScenario | src/index.ts:87-89 | after the registry is cleared, a transfer fails with UserNotFound and no balance moves |
| Scenarios.RegistryScenario | src/index.ts:4-14 | get returns the first value, then the overwriting second value, then nothing after clear |

## Left out

- Id generation: `Math.random().toString(36).substr(2, 9)` is modelled as the choice of any string not already in use (src/index.ts:62, :72, :109). The model has neither the base-36 format nor possible collisions. A bank id is any string, because nothing looks a bank up by its own id.
- Number semantics: amounts and balances are unbounded integers. JavaScript's floating-point rounding, `NaN` and non-integral amounts are not modelled.
- Error messages: only the error kinds are kept. "Insufficient funds", "Account not found" and the runtime type errors that the model names UserNotFound and BankNotFound are not kept as text.
- `getId`, `getBalance` and the bank's `getId` are plain field reads: `id` and `balance` are fields of the classes and are read directly.
- `User.name`: it is never read, so it is not modelled.
- `TransactionService`: the class is empty.
- The `TestFixtures` interface is a type only.
- `TestFactory.createBank` and `TestFactory.createUser` only forward to `Bank.create` and `User.create`.
- The copy of `TestFactory` inside `src/index.ts:140-174` is the same scaffolding as `src/__tests__/helpers/TestFactory.ts`. The scenarios follow that one.
- Cross-bank registration: `Bank.create` never registers a bank. A cross-bank transfer therefore succeeds only after a caller registers the bank under some key, as `Scenarios.CreateCrossBankFixtures` does. The model invents no registration.
- Conservation.SendAcrossBanks: the ledger claim for a successful transfer assumes that the two banks share no account object. That holds for every pair of banks the source builds: `accounts` is private, and its only writer, `createAccount`, always files a newly built account. The model does not track that disjointness across banks, so it is a hypothesis of the claim instead.
- User accounts: the source keeps the caller's array by reference, so a later change to that array would change the primary account. The model stores the list as an immutable sequence fixed at creation, so that aliasing is not modelled. No code in the repository changes the array after `User.create`.
- Concurrency and atomicity: the source is sequential. The deposit after a successful withdraw cannot fail, so no partial transfer is reachable.
