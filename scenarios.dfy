/** Client scenarios over the ledger, built from the repository's test
    fixture: a bank that forbids overdraft holding Alice's account (1000)
    and Bob's (500), and a bank that allows overdraft holding Alice's second
    account (200). Each scenario states its expected outcome as a
    postcondition that the ledger's contracts alone must establish. */
module Scenarios {
  import Ids
  import opened Ledger

  /** The fixture: clears the registry, opens the two banks and three
      accounts, and registers Alice and Bob. */
  method CreateFixtures(registry: Registry)
    returns (bank: Bank, bankAllowsNegative: Bank,
             aliceAccount: BankAccount, aliceAccountAllowsNegative: BankAccount, bobAccount: BankAccount,
             alice: User, bob: User)
    modifies registry
    ensures fresh(bank) && fresh(bankAllowsNegative)
    ensures fresh(aliceAccount) && fresh(aliceAccountAllowsNegative) && fresh(bobAccount)
    ensures bank.Valid() && bankAllowsNegative.Valid() && bank != bankAllowsNegative
    ensures !bank.isNegativeAllowed && bankAllowsNegative.isNegativeAllowed
    ensures bank.accounts == map[aliceAccount.id := aliceAccount, bobAccount.id := bobAccount]
    ensures bankAllowsNegative.accounts == map[aliceAccountAllowsNegative.id := aliceAccountAllowsNegative]
    ensures aliceAccount.id != bobAccount.id
    ensures aliceAccount.balance == 1000 && bobAccount.balance == 500
    ensures aliceAccountAllowsNegative.balance == 200
    ensures !aliceAccount.isNegativeAllowed && !bobAccount.isNegativeAllowed
    ensures aliceAccountAllowsNegative.isNegativeAllowed
    ensures alice.accounts == [aliceAccount.id, aliceAccountAllowsNegative.id]
    ensures bob.accounts == [bobAccount.id]
    ensures alice.id != bob.id
    ensures registry.entries == map[alice.id := UserEntry(alice), bob.id := UserEntry(bob)]
  {
    registry.Clear();
    bank := Bank.Create(None);
    bankAllowsNegative := Bank.Create(Some(true));
    aliceAccount := bank.CreateAccount(1000);
    aliceAccountAllowsNegative := bankAllowsNegative.CreateAccount(200);
    bobAccount := bank.CreateAccount(500);
    alice := User.Create(registry, [aliceAccount.id, aliceAccountAllowsNegative.id]);
    bob := User.Create(registry, [bobAccount.id]);
  }

  /** Alice sends 300 to Bob within the first bank: 700 and 800, and the
      bank's total is still 1500. */
  method TransferScenario() returns (r: Outcome, aliceBalance: int, bobBalance: int)
    ensures r == Pass && aliceBalance == 700 && bobBalance == 800
  {
    var registry := new Registry();
    var bank, _, aliceAccount, _, bobAccount, alice, bob := CreateFixtures(registry);
    bank.ResolveRegistered(registry, alice, bob, None, bank);
    ghost var legs;
    r, legs := bank.Send(registry, alice.id, bob.id, 300, None);
    aliceBalance, bobBalance := aliceAccount.balance, bobAccount.balance;
  }

  /** An account that forbids overdraft refuses to go from 200 to -100 and
      keeps its balance. */
  method InsufficientFundsScenario() returns (r: Outcome, balance: int)
    ensures r == Fail(InsufficientFunds) && balance == 200
  {
    var bank := Bank.Create(None);
    var account := bank.CreateAccount(200);
    r := account.Withdraw(300);
    balance := account.balance;
  }

  /** Alice's account in the bank that allows overdraft goes from 200 to -100. */
  method OverdraftScenario() returns (r: Outcome, balance: int)
    ensures r == Pass && balance == -100
  {
    var registry := new Registry();
    var _, _, _, aliceAccountAllowsNegative, _, _, _ := CreateFixtures(registry);
    r := aliceAccountAllowsNegative.Withdraw(300);
    balance := aliceAccountAllowsNegative.balance;
  }

  /** Withdrawing an amount and depositing it back restores the balance;
      when the withdrawal is refused nothing is deposited and nothing moved. */
  method WithdrawDepositRoundTrip(initialBalance: int, isNegativeAllowed: bool, amount: int)
    returns (r: Outcome, restored: int)
    ensures r.Pass? <==> isNegativeAllowed || initialBalance >= amount
    ensures restored == initialBalance
  {
    var bank := Bank.Create(Some(isNegativeAllowed));
    var account := bank.CreateAccount(initialBalance);
    r := account.Withdraw(amount);
    if r.Pass? {
      account.Deposit(amount);
    }
    restored := account.balance;
  }

  /** Looking up an id the bank never issued fails and files nothing. */
  method UnknownAccountScenario() returns (r: Result<BankAccount>, accountsAfter: nat)
    ensures r == Failure(AccountNotFound) && accountsAfter == 2
  {
    var registry := new Registry();
    var bank, _, _, _, _, _, _ := CreateFixtures(registry);
    Ids.FreshIdExists(bank.accounts.Keys);
    var unknown: string :| unknown !in bank.accounts;
    r := bank.GetAccount(unknown);
    accountsAfter := |bank.accounts|;
  }

  /** A two-bank setup: Bob holds 500 in a bank that forbids overdraft; a
      receiver's primary account holds 200 in a bank that allows overdraft,
      registered under an unused, non-empty key. Every lookup of a transfer
      from Bob to the receiver naming that key succeeds. */
  method CreateCrossBankFixtures(registry: Registry)
    returns (bank: Bank, otherBank: Bank, bobAccount: BankAccount, receiverAccount: BankAccount,
             bob: User, receiver: User, bankKey: string)
    modifies registry
    ensures fresh(bank) && fresh(otherBank) && fresh(bobAccount) && fresh(receiverAccount)
    ensures bank != otherBank && bankKey != ""
    ensures bobAccount.balance == 500 && !bobAccount.isNegativeAllowed
    ensures receiverAccount.balance == 200 && receiverAccount.isNegativeAllowed
    ensures bank.ResolveTransfer(registry, bob.id, receiver.id, Some(bankKey))
      == Success(Legs(bobAccount, receiverAccount, otherBank))
  {
    registry.Clear();
    bank := Bank.Create(None);
    otherBank := Bank.Create(Some(true));
    bobAccount := bank.CreateAccount(500);
    receiverAccount := otherBank.CreateAccount(200);
    bob := User.Create(registry, [bobAccount.id]);
    Ids.FreshIdExists(registry.entries.Keys + {""});
    bankKey :| bankKey !in registry.entries && bankKey != "";
    registry.Register(bankKey, BankEntry(otherBank));
    receiver := User.Create(registry, [receiverAccount.id]);
    assert registry.entries[bankKey] == BankEntry(otherBank);
    bank.ResolveRegistered(registry, bob, receiver, Some(bankKey), otherBank);
  }

  /** Bob sends 100 to the receiver at the other bank, naming that bank as
      the target: 400 at the first bank, 300 at the second. */
  method CrossBankScenario() returns (r: Outcome, bobBalance: int, receiverBalance: int)
    ensures r == Pass && bobBalance == 400 && receiverBalance == 300
  {
    var registry := new Registry();
    var bank, _, bobAccount, receiverAccount, bob, receiver, bankKey := CreateCrossBankFixtures(registry);
    ghost var legs;
    r, legs := bank.Send(registry, bob.id, receiver.id, 100, Some(bankKey));
    bobBalance, receiverBalance := bobAccount.balance, receiverAccount.balance;
  }

  /** A receiver without accounts hands undefined to the account lookup:
      the transfer fails with AccountNotFound before Alice is debited. */
  method NoAccountsScenario() returns (r: Outcome, aliceBalance: int)
    ensures r == Fail(AccountNotFound) && aliceBalance == 1000
  {
    var registry := new Registry();
    var bank, _, aliceAccount, _, _, alice, _ := CreateFixtures(registry);
    var nobody := User.Create(registry, []);
    ghost var legs;
    r, legs := bank.Send(registry, alice.id, nobody.id, 300, None);
    aliceBalance := aliceAccount.balance;
  }

  /** Once the registry is cleared, the sender is unknown: the transfer
      fails with UserNotFound and no balance moves. */
  method UnregisteredUserScenario() returns (r: Outcome, aliceBalance: int, bobBalance: int)
    ensures r == Fail(UserNotFound) && aliceBalance == 1000 && bobBalance == 500
  {
    var registry := new Registry();
    var bank, _, aliceAccount, _, bobAccount, alice, bob := CreateFixtures(registry);
    registry.Clear();
    ghost var legs;
    r, legs := bank.Send(registry, alice.id, bob.id, 300, None);
    aliceBalance, bobBalance := aliceAccount.balance, bobAccount.balance;
  }

  /** Alice names a target bank key under which nothing is registered and
      a receiver nobody registered: the missing bank is reported first,
      since it is looked up before the receiver, and no balance moves. */
  method MissingBankKeyScenario() returns (r: Outcome, aliceBalance: int)
    ensures r == Fail(BankNotFound) && aliceBalance == 1000
  {
    var registry := new Registry();
    var bank, _, aliceAccount, _, _, alice, _ := CreateFixtures(registry);
    Ids.FreshIdExists(registry.entries.Keys + {""});
    var unknown: string :| unknown !in registry.entries && unknown != "";
    assert registry.LookupUser(alice.id) == Some(alice);
    ghost var legs;
    r, legs := bank.Send(registry, alice.id, unknown, 300, Some(unknown));
    aliceBalance := aliceAccount.balance;
  }

  /** Alice names Bob's user id as the target bank and a receiver nobody
      registered: the key exists but holds no bank, so the receiver's
      lookup comes first and fails with UserNotFound. */
  method UserKeyUnknownReceiverScenario() returns (r: Outcome, aliceBalance: int)
    ensures r == Fail(UserNotFound) && aliceBalance == 1000
  {
    var registry := new Registry();
    var bank, _, aliceAccount, _, _, alice, bob := CreateFixtures(registry);
    Ids.FreshIdExists(registry.entries.Keys);
    var unknown: string :| unknown !in registry.entries;
    assert registry.LookupUser(alice.id) == Some(alice);
    ghost var legs;
    r, legs := bank.Send(registry, alice.id, unknown, 300, Some(bob.id));
    aliceBalance := aliceAccount.balance;
  }

  /** Alice sends to Bob naming a user's id (one of theirs that is not
      empty) as the target bank: both users resolve, and the entry under
      the key is no bank, so the transfer fails with BankNotFound and no
      balance moves. */
  method UserKeyAsBankScenario() returns (r: Outcome, aliceBalance: int, bobBalance: int)
    ensures r == Fail(BankNotFound) && aliceBalance == 1000 && bobBalance == 500
  {
    var registry := new Registry();
    var bank, _, aliceAccount, _, bobAccount, alice, bob := CreateFixtures(registry);
    var userKey := if alice.id != "" then alice.id else bob.id;
    assert registry.LookupUser(alice.id) == Some(alice);
    assert registry.LookupUser(bob.id) == Some(bob);
    assert bank.TargetBank(registry, Some(userKey)) == None;
    ghost var legs;
    r, legs := bank.Send(registry, alice.id, bob.id, 300, Some(userKey));
    aliceBalance, bobBalance := aliceAccount.balance, bobAccount.balance;
  }

  /** The registry returns what was registered last under a key, and
      nothing once cleared. */
  method RegistryScenario(key: string, first: Entry, second: Entry)
    returns (afterFirst: Option<Entry>, afterSecond: Option<Entry>, afterClear: Option<Entry>)
    ensures afterFirst == Some(first) && afterSecond == Some(second) && afterClear == None
  {
    var registry := new Registry();
    registry.Register(key, first);
    afterFirst := registry.Get(key);
    registry.Register(key, second);
    afterSecond := registry.Get(key);
    registry.Clear();
    afterClear := registry.Get(key);
  }
}
