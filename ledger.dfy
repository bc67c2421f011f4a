/** An in-memory ledger: accounts with a balance and an overdraft policy,
    banks that own accounts and move money between their owners' primary
    accounts, users that list the ids of their accounts, and a process-wide
    registry through which a transfer finds its users (and, for a transfer
    to another bank, that bank). */
module Ledger {
  import Ids
  import Sums

  /** The failures the ledger raises, by kind. The first two are the
      source's explicit errors; the last two are where the source would
      dereference a missing registry entry. */
  datatype Error =
    | InsufficientFunds
    | AccountNotFound
    | UserNotFound
    | BankNotFound

  datatype Option<T> = None | Some(value: T)

  /** Result of an operation that yields a value or fails. */
  datatype Result<T> = Success(value: T) | Failure(error: Error)

  /** Result of an operation that yields nothing or fails. */
  datatype Outcome = Pass | Fail(error: Error)

  /** What the registry stores: its values are untyped in the source; a
      transfer uses them either as users or as banks. */
  datatype Entry = UserEntry(user: User) | BankEntry(bank: Bank)

  /** The process-wide lookup table from id to user or bank. The model
      passes the one instance explicitly to the operations that use it. */
  class Registry {
    var entries: map<string, Entry>

    constructor ()
      ensures entries == map[]
    {
      entries := map[];
    }

    /** Wipes every entry (used to isolate test scenarios). */
    method Clear()
      modifies this
      ensures entries == map[]
    {
      entries := map[];
    }

    /** Inserts or overwrites the entry under `key`. */
    method Register(key: string, value: Entry)
      modifies this
      ensures entries == old(entries)[key := value]
    {
      entries := entries[key := value];
    }

    /** The entry under `key`; None where the source yields undefined. */
    function Get(key: string): (r: Option<Entry>)
      reads this
      ensures r.Some? <==> key in entries
      ensures r.Some? ==> r.value == entries[key]
    {
      if key in entries then Some(entries[key]) else None
    }

    /** The user under `key`, if the entry there is a user: a transfer can
        take a primary account id only from a user. */
    function LookupUser(key: string): (r: Option<User>)
      reads this
      ensures r.Some? <==> key in entries && entries[key].UserEntry?
      ensures r.Some? ==> entries[key] == UserEntry(r.value)
    {
      match Get(key)
      case Some(UserEntry(user)) => Some(user)
      case _ => None
    }

    /** The bank under `key`, if the entry there is a bank: a transfer can
        look up an account only in a bank. */
    function LookupBank(key: string): (r: Option<Bank>)
      reads this
      ensures r.Some? <==> key in entries && entries[key].BankEntry?
      ensures r.Some? ==> entries[key] == BankEntry(r.value) && r.value in Banks()
    {
      match Get(key)
      case Some(BankEntry(bank)) => Some(bank)
      case _ => None
    }

    /** Every bank the registry holds. */
    function Banks(): set<Bank>
      reads this
    {
      set key | key in entries && entries[key].BankEntry? :: entries[key].bank
    }
  }

  /** One account: its id and overdraft policy are fixed at creation, its
      balance changes by deposits and withdrawals. */
  class BankAccount {
    const id: string
    var balance: int
    const isNegativeAllowed: bool

    constructor (id: string, balance: int, isNegativeAllowed: bool)
      ensures this.id == id && this.balance == balance
      ensures this.isNegativeAllowed == isNegativeAllowed
    {
      this.id := id;
      this.balance := balance;
      this.isNegativeAllowed := isNegativeAllowed;
    }

    /** Always succeeds: the balance grows by exactly `amount`. */
    method Deposit(amount: int)
      modifies this
      ensures balance == old(balance) + amount
    {
      balance := balance + amount;
    }

    /** Refuses to overdraw an account whose policy forbids it, changing
        nothing; otherwise the balance drops by exactly `amount`, below zero
        if the policy allows it. */
    method Withdraw(amount: int) returns (r: Outcome)
      modifies this
      ensures r == Pass || r == Fail(InsufficientFunds)
      ensures r.Fail? <==> !isNegativeAllowed && old(balance) < amount
      ensures balance == if r.Pass? then old(balance) - amount else old(balance)
      ensures r.Pass? && !isNegativeAllowed ==> balance >= 0
    {
      if !isNegativeAllowed && balance < amount {
        return Fail(InsufficientFunds);
      }
      balance := balance - amount;
      r := Pass;
    }
  }

  /** A user: an id and the ordered ids of its accounts, the first of which
      is its primary account. */
  class User {
    const id: string
    const accounts: seq<string>

    constructor (id: string, accounts: seq<string>)
      ensures this.id == id && this.accounts == accounts
    {
      this.id := id;
      this.accounts := accounts;
    }

    /** Creates a user under an id not yet in the registry and registers it. */
    static method Create(registry: Registry, accounts: seq<string>) returns (user: User)
      modifies registry
      ensures fresh(user) && user.accounts == accounts
      ensures user.id !in old(registry.entries)
      ensures registry.entries == old(registry.entries)[user.id := UserEntry(user)]
    {
      Ids.FreshIdExists(registry.entries.Keys);
      var id: string :| id !in registry.entries;
      user := new User(id, accounts);
      registry.Register(id, UserEntry(user));
    }

    /** The first account id; None (undefined in the source) for a user
        without accounts. */
    function PrimaryAccountId(): (r: Option<string>)
      ensures r.None? <==> accounts == []
      ensures r.Some? ==> r.value == accounts[0] && r.value in accounts
    {
      if |accounts| > 0 then Some(accounts[0]) else None
    }
  }

  /** The two accounts a transfer touches and the bank holding the second. */
  datatype Legs = Legs(source: BankAccount, target: BankAccount, targetBank: Bank)

  /** A bank: an id, a fixed overdraft policy that every account it creates
      inherits, and its accounts by id. */
  class Bank {
    const id: string
    var accounts: map<string, BankAccount>
    const isNegativeAllowed: bool

    /** Every account is filed under its own id (so distinct ids hold
        distinct accounts) and carries the bank's overdraft policy. */
    ghost predicate Valid()
      reads this
    {
      forall key | key in accounts ::
        accounts[key].id == key && accounts[key].isNegativeAllowed == isNegativeAllowed
    }

    constructor (id: string, isNegativeAllowed: bool)
      ensures this.id == id && this.isNegativeAllowed == isNegativeAllowed
      ensures accounts == map[] && Valid()
    {
      this.id := id;
      this.isNegativeAllowed := isNegativeAllowed;
      accounts := map[];
    }

    /** A new empty bank under an arbitrary id; overdraft is forbidden
        unless the option asks for it. */
    static method Create(isNegativeAllowed: Option<bool>) returns (bank: Bank)
      ensures fresh(bank) && bank.Valid() && bank.accounts == map[]
      ensures bank.isNegativeAllowed <==> isNegativeAllowed == Some(true)
    {
      var id: string := *;
      var policy := if isNegativeAllowed.Some? then isNegativeAllowed.value else false;
      bank := new Bank(id, policy);
    }

    /** Opens an account under a fresh id with the bank's policy; every
        existing account stays where it was. */
    method CreateAccount(initialBalance: int) returns (account: BankAccount)
      requires Valid()
      modifies this
      ensures Valid() && fresh(account)
      ensures account.id !in old(accounts)
      ensures accounts == old(accounts)[account.id := account]
      ensures account.balance == initialBalance
      ensures account.isNegativeAllowed == isNegativeAllowed
    {
      Ids.FreshIdExists(accounts.Keys);
      var accountId: string :| accountId !in accounts;
      account := new BankAccount(accountId, initialBalance, isNegativeAllowed);
      accounts := accounts[accountId := account];
    }

    /** The stored account, or AccountNotFound; a read that adds nothing. */
    function GetAccount(accountId: string): (r: Result<BankAccount>)
      reads this
      ensures r.Success? <==> accountId in accounts
      ensures r.Success? ==> r.value == accounts[accountId]
      ensures r.Failure? ==> r.error == AccountNotFound
      ensures Valid() && r.Success? ==>
        r.value.id == accountId && r.value.isNegativeAllowed == isNegativeAllowed
    {
      if accountId in accounts then Success(accounts[accountId]) else Failure(AccountNotFound)
    }

    /** `getAccount(user.getPrimaryAccountId())`: a user without accounts
        passes undefined, which no account is filed under. */
    function GetPrimaryAccount(user: User): (r: Result<BankAccount>)
      reads this
      ensures r.Success? <==> |user.accounts| > 0 && user.accounts[0] in accounts
      ensures r.Success? ==> r.value == accounts[user.accounts[0]]
      ensures r.Failure? ==> r.error == AccountNotFound
    {
      match user.PrimaryAccountId()
      case None => Failure(AccountNotFound)
      case Some(accountId) => GetAccount(accountId)
    }

    /** The bank to credit: this one when no target bank id is given (an
        empty id counts as none), otherwise the bank registered under it. */
    function TargetBank(registry: Registry, toBankId: Option<string>): (r: Option<Bank>)
      reads registry
      ensures toBankId == None || toBankId == Some("") ==> r == Some(this)
      ensures toBankId.Some? && toBankId.value != "" ==> r == registry.LookupBank(toBankId.value)
      ensures r.Some? ==> r.value == this || r.value in registry.Banks()
    {
      match toBankId
      case None => Some(this)
      case Some(bankId) => if bankId == "" then Some(this) else registry.LookupBank(bankId)
    }

    /** `account` is the primary account of the user registered as `userId`,
        as filed in `bank`. */
    ghost predicate IsPrimaryAccount(registry: Registry, userId: string, bank: Bank, account: BankAccount)
      reads registry, bank
    {
      && registry.LookupUser(userId).Some?
      && bank.GetPrimaryAccount(registry.LookupUser(userId).value) == Success(account)
    }

    /** The sender is a registered user whose primary account is filed in
        this bank. */
    ghost predicate SenderResolved(registry: Registry, fromUserId: string)
      reads this, registry
    {
      && registry.LookupUser(fromUserId).Some?
      && GetPrimaryAccount(registry.LookupUser(fromUserId).value).Success?
    }

    /** A target bank id is given, is not empty, and nothing is registered
        under it. */
    predicate TargetKeyMissing(registry: Registry, toBankId: Option<string>)
      reads registry
    {
      toBankId.Some? && toBankId.value != "" && toBankId.value !in registry.entries
    }

    /** The lookups a transfer makes before it moves any money, in the
        order the source evaluates them: sender, sender's account, target
        bank, receiver, receiver's account. A target key that is registered
        but holds no bank is only found out after the receiver's lookup,
        since the call's arguments are evaluated before the callee is. */
    function ResolveTransfer(registry: Registry, fromUserId: string, toUserId: string, toBankId: Option<string>): (r: Result<Legs>)
      reads this, registry, registry.Banks()
      ensures r.Failure? ==> r.error != InsufficientFunds
      ensures registry.LookupUser(fromUserId).None? ==> r == Failure(UserNotFound)
      ensures registry.LookupUser(fromUserId).Some? && !SenderResolved(registry, fromUserId) ==>
        r == Failure(AccountNotFound)
      ensures SenderResolved(registry, fromUserId) && TargetKeyMissing(registry, toBankId) ==>
        r == Failure(BankNotFound)
      ensures (&& SenderResolved(registry, fromUserId) && !TargetKeyMissing(registry, toBankId)
               && registry.LookupUser(toUserId).None?) ==>
        r == Failure(UserNotFound)
      ensures (&& SenderResolved(registry, fromUserId) && registry.LookupUser(toUserId).Some?
               && TargetBank(registry, toBankId).None?) ==>
        r == Failure(BankNotFound)
      ensures (&& SenderResolved(registry, fromUserId) && registry.LookupUser(toUserId).Some?
               && TargetBank(registry, toBankId).Some?
               && TargetBank(registry, toBankId).value.GetPrimaryAccount(registry.LookupUser(toUserId).value).Failure?) ==>
        r == Failure(AccountNotFound)
      ensures r.Success? ==>
        && IsPrimaryAccount(registry, fromUserId, this, r.value.source)
        && TargetBank(registry, toBankId) == Some(r.value.targetBank)
        && IsPrimaryAccount(registry, toUserId, r.value.targetBank, r.value.target)
      ensures forall source: BankAccount, target: BankAccount, bank: Bank |
          source in accounts.Values && bank in {this} + registry.Banks() && target in bank.accounts.Values ::
        IsPrimaryAccount(registry, fromUserId, this, source)
        && TargetBank(registry, toBankId) == Some(bank)
        && IsPrimaryAccount(registry, toUserId, bank, target)
        ==> r == Success(Legs(source, target, bank))
    {
      var fromUser := registry.LookupUser(fromUserId);
      var toUser := registry.LookupUser(toUserId);
      if fromUser.None? then Failure(UserNotFound)
      else
        var fromAccount := GetPrimaryAccount(fromUser.value);
        if fromAccount.Failure? then Failure(fromAccount.error)
        else
          var toBank := TargetBank(registry, toBankId);
          if TargetKeyMissing(registry, toBankId) then Failure(BankNotFound)
          else if toUser.None? then Failure(UserNotFound)
          else if toBank.None? then Failure(BankNotFound)
          else
            var toAccount := toBank.value.GetPrimaryAccount(toUser.value);
            if toAccount.Failure? then Failure(toAccount.error)
            else Success(Legs(fromAccount.value, toAccount.value, toBank.value))
    }

    /** With the sender and the receiver registered, the target bank
        found, and each user's first account id filed in the right bank,
        every lookup of the transfer succeeds. */
    lemma ResolveRegistered(registry: Registry, fromUser: User, toUser: User, toBankId: Option<string>, targetBank: Bank)
      requires fromUser.id in registry.entries && registry.entries[fromUser.id] == UserEntry(fromUser)
      requires toUser.id in registry.entries && registry.entries[toUser.id] == UserEntry(toUser)
      requires TargetBank(registry, toBankId) == Some(targetBank)
      requires fromUser.accounts != [] && fromUser.accounts[0] in accounts
      requires toUser.accounts != [] && toUser.accounts[0] in targetBank.accounts
      ensures ResolveTransfer(registry, fromUser.id, toUser.id, toBankId)
        == Success(Legs(accounts[fromUser.accounts[0]], targetBank.accounts[toUser.accounts[0]], targetBank))
    {
      assert registry.LookupUser(fromUser.id) == Some(fromUser);
      assert registry.LookupUser(toUser.id) == Some(toUser);
    }

    /** The accounts a transfer may change: none if a lookup fails. */
    ghost function Touched(registry: Registry, fromUserId: string, toUserId: string, toBankId: Option<string>): set<BankAccount>
      reads this, registry, registry.Banks()
    {
      var legs := ResolveTransfer(registry, fromUserId, toUserId, toBankId);
      if legs.Success? then {legs.value.source, legs.value.target} else {}
    }

    /** Balance per account id: the bank's ledger. */
    function Balances(): (view: map<string, int>)
      reads this, accounts.Values
      ensures view.Keys == accounts.Keys
      ensures forall key | key in accounts :: view[key] == accounts[key].balance
    {
      map key | key in accounts :: accounts[key].balance
    }

    /** The sum of all balances in this bank. */
    ghost function Total(): int
      reads this, accounts.Values
    {
      Sums.Sum(Balances())
    }

    /** A ledger snapshot `before` and the current balances differ in one
        account, by `delta`: the ledger records that one change and its
        total moves by `delta`. */
    lemma LedgerAfterChange(before: map<string, int>, account: BankAccount, delta: int)
      requires Valid() && before.Keys == accounts.Keys
      requires account.id in accounts && accounts[account.id] == account
      requires account.balance == before[account.id] + delta
      requires forall key | key in accounts && key != account.id :: accounts[key].balance == before[key]
      ensures Balances() == before[account.id := before[account.id] + delta]
      ensures Sums.Sum(Balances()) == Sums.Sum(before) + delta
    {
      assert Balances() == before[account.id := before[account.id] + delta];
      Sums.SumUpdate(before, account.id, before[account.id] + delta);
    }

    /** A ledger snapshot `before` and the current balances differ by
        `amount` moved from `source` to `target`: the ledger is `before`
        with that transfer applied, and its total is unchanged. */
    lemma LedgerAfterTransfer(before: map<string, int>, source: BankAccount, target: BankAccount, amount: int)
      requires Valid() && before.Keys == accounts.Keys
      requires source.id in accounts && accounts[source.id] == source
      requires target.id in accounts && accounts[target.id] == target
      requires source != target ==>
        source.balance == before[source.id] - amount && target.balance == before[target.id] + amount
      requires source == target ==> source.balance == before[source.id]
      requires forall key | key in accounts && key != source.id && key != target.id ::
        accounts[key].balance == before[key]
      ensures Balances() == Sums.Transfer(before, source.id, target.id, amount)
      ensures Sums.Sum(Balances()) == Sums.Sum(before)
    {
      assert Balances() == Sums.Transfer(before, source.id, target.id, amount);
      Sums.TransferConserves(before, source.id, target.id, amount);
    }

    /** Moves `amount` from the sender's primary account in this bank to the
        receiver's primary account in this bank or in the bank registered
        under `toBankId`. Every lookup happens before any money moves, and
        a deposit cannot fail, so a failed transfer changes nothing. */
    method Send(registry: Registry, fromUserId: string, toUserId: string, amount: int, toBankId: Option<string>)
      returns (r: Outcome, ghost legs: Result<Legs>)
      modifies Touched(registry, fromUserId, toUserId, toBankId)
      ensures legs == old(ResolveTransfer(registry, fromUserId, toUserId, toBankId))
      ensures legs == ResolveTransfer(registry, fromUserId, toUserId, toBankId)
      ensures legs.Failure? ==> r == Fail(legs.error)
      ensures legs.Success? ==>
        var source, target := legs.value.source, legs.value.target;
        && (r.Fail? <==> !source.isNegativeAllowed && old(source.balance) < amount)
        && (r.Fail? ==> r.error == InsufficientFunds)
        && source.balance + target.balance == old(source.balance) + old(target.balance)
        && (r.Pass? && source != target ==>
              source.balance == old(source.balance) - amount
              && target.balance == old(target.balance) + amount)
      ensures r.Fail? ==>
        forall account | account in old(Touched(registry, fromUserId, toUserId, toBankId)) ::
          account.balance == old(account.balance)
      ensures legs.Success? ==>
        forall account | account in old(accounts.Values) && account != legs.value.source && account != legs.value.target ::
          account.balance == old(account.balance)
      ensures legs.Success? ==>
        var targetBank := legs.value.targetBank;
        forall account | account in old(targetBank.accounts.Values) && account != legs.value.source && account != legs.value.target ::
          account.balance == old(account.balance)
    {
      var resolved := ResolveTransfer(registry, fromUserId, toUserId, toBankId);
      legs := resolved;
      if resolved.Failure? {
        return Fail(resolved.error), legs;
      }
      var source, target, targetBank := resolved.value.source, resolved.value.target, resolved.value.targetBank;
      r := source.Withdraw(amount);
      if r.Pass? {
        target.Deposit(amount);
      }
    }
  }
}
