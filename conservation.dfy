/** What a transfer does to the banks' ledgers, for every input: derived
    by clients from the per-account contract of `Bank.Send`. */
module Conservation {
  import Sums
  import opened Ledger

  /** A transfer inside one bank (no target bank id) applies exactly that
      transfer to the bank's ledger when it succeeds, and in every case
      leaves the bank's total where it was. */
  method SendWithinBank(bank: Bank, registry: Registry, fromUserId: string, toUserId: string, amount: int)
    returns (r: Outcome)
    requires bank.Valid()
    modifies bank.Touched(registry, fromUserId, toUserId, None)
    ensures bank.Total() == old(bank.Total())
    ensures var legs := old(bank.ResolveTransfer(registry, fromUserId, toUserId, None));
      && (r.Fail? ==> bank.Balances() == old(bank.Balances()))
      && (legs.Success? && r.Pass? ==>
            bank.Balances() == Sums.Transfer(old(bank.Balances()), legs.value.source.id, legs.value.target.id, amount))
  {
    ghost var before := bank.Balances();
    ghost var legs;
    r, legs := bank.Send(registry, fromUserId, toUserId, amount, None);
    if legs.Success? {
      var source, target := legs.value.source, legs.value.target;
      bank.LedgerAfterTransfer(before, source, target, if r.Pass? then amount else 0);
    } else {
      assert bank.Balances() == before;
    }
  }

  /** A failed transfer to another bank leaves both banks' ledgers as they
      were. A successful one, to a bank whose accounts are not this bank's,
      takes `amount` out of this bank's total and adds it to the other
      bank's total: nothing is counted twice or lost. */
  method SendAcrossBanks(bank: Bank, registry: Registry, fromUserId: string, toUserId: string, amount: int, toBankId: string)
    returns (r: Outcome)
    requires bank.Valid()
    requires forall other | other in registry.Banks() :: other.Valid()
    modifies bank.Touched(registry, fromUserId, toUserId, Some(toBankId))
    ensures r.Fail? ==> bank.Balances() == old(bank.Balances())
    ensures var legs := old(bank.ResolveTransfer(registry, fromUserId, toUserId, Some(toBankId)));
      legs.Success? && r.Fail? ==>
        legs.value.targetBank.Balances() == old(legs.value.targetBank.Balances())
    ensures var legs := old(bank.ResolveTransfer(registry, fromUserId, toUserId, Some(toBankId)));
      (&& legs.Success? && r.Pass? && legs.value.targetBank != bank
       && legs.value.target !in old(bank.accounts.Values)
       && legs.value.source !in old(legs.value.targetBank.accounts.Values)) ==>
        && bank.Total() == old(bank.Total()) - amount
        && legs.value.targetBank.Total() == old(legs.value.targetBank.Total()) + amount
  {
    ghost var before := bank.Balances();
    ghost var resolved := bank.ResolveTransfer(registry, fromUserId, toUserId, Some(toBankId));
    ghost var targetBefore := if resolved.Success? then resolved.value.targetBank.Balances() else map[];
    ghost var legs;
    r, legs := bank.Send(registry, fromUserId, toUserId, amount, Some(toBankId));
    if r.Fail? {
      assert bank.Balances() == before;
      if legs.Success? {
        assert legs.value.targetBank.Balances() == targetBefore;
      }
    } else if legs.Success? {
      var source, target, targetBank := legs.value.source, legs.value.target, legs.value.targetBank;
      if targetBank != bank && target !in bank.accounts.Values && source !in targetBank.accounts.Values {
        bank.LedgerAfterChange(before, source, -amount);
        targetBank.LedgerAfterChange(targetBefore, target, amount);
      }
    }
  }
}
